/** `add_university_name` of `src/crawler/utils/general_utils.py`: the
    university name derived from the start URL by successive removals, and
    its write into the configuration's `settings`. */
module GeneralUtils {
  import opened Base
  import opened Strings
  import opened Py

  /** Lines 2-5: remove every `https://`, then every `www.`, then every `/`,
      then every `.edu`, each with `str.replace`. */
  function UniversityName(baseUrl: string): string {
    var noScheme := ReplaceAll(baseUrl, "https://", "");
    var noWww := ReplaceAll(noScheme, "www.", "");
    var noSlash := ReplaceAll(noWww, "/", "");
    ReplaceAll(noSlash, ".edu", "")
  }

  /** `add_university_name(config, base_url)`, returning the configuration
      as it is after the in-place write of line 7. */
  function AddUniversityName(config: Value, baseUrl: string): (r: Result<Value, Error>)
    ensures r.Success? <==> config.Dict? && "settings" in config.entries && config.entries["settings"].Dict?
    ensures !config.Dict? ==> r == Failure(TypeError)
    ensures config.Dict? && "settings" !in config.entries ==> r == Failure(KeyError("settings"))
    ensures config.Dict? && "settings" in config.entries && !config.entries["settings"].Dict? ==> r == Failure(TypeError)
    ensures r.Success? ==> r.value.Dict? && "settings" in r.value.entries && r.value.entries["settings"].Dict?
    ensures r.Success? ==> ("UNIVERSITY_NAME" in r.value.entries["settings"].entries &&
      r.value.entries["settings"].entries["UNIVERSITY_NAME"] == Str(UniversityName(baseUrl)))
    ensures r.Success? ==> forall k :: k != "settings" ==>
      (k in r.value.entries <==> k in config.entries) && (k in config.entries ==> r.value.entries[k] == config.entries[k])
    ensures r.Success? ==> forall k :: k != "UNIVERSITY_NAME" ==>
      var before, after := config.entries["settings"].entries, r.value.entries["settings"].entries;
      (k in after <==> k in before) && (k in before ==> after[k] == before[k])
  {
    var name := UniversityName(baseUrl);
    match Subscript(config, "settings")
    case Failure(e) => Failure(e)
    case Success(settings) =>
      match SetItem(settings, "UNIVERSITY_NAME", Str(name))
      case Failure(e) => Failure(e)
      case Success(updated) => Success(Dict(config.entries["settings" := updated]))
  }

  // -----------------------------------------------------------------------
  // Properties
  // -----------------------------------------------------------------------

  /** The name never contains `/` and is never longer than the URL. */
  lemma UniversityNameShape(baseUrl: string)
    ensures '/' !in UniversityName(baseUrl)
    ensures |UniversityName(baseUrl)| <= |baseUrl|
  {
    var noScheme := ReplaceAll(baseUrl, "https://", "");
    var noWww := ReplaceAll(noScheme, "www.", "");
    var noSlash := ReplaceAll(noWww, "/", "");
    RemoveAllShrinks(baseUrl, "https://");
    RemoveAllShrinks(noScheme, "www.");
    RemoveAllShrinks(noWww, "/");
    RemoveAllShrinks(noSlash, ".edu");
    RemoveCharLeavesNone(noWww, '/');
  }

  /** The usual form of a start URL, `https://www.<host>.edu/`, gives the
      bare host, for any host in which none of the removed patterns occurs:
      no `https://`, no `/`, no `.edu`, and no `www.` even with the dot of
      `.edu` after it (a host ending in `www` loses those letters). */
  lemma UniversityNameOfHttpsUrl(host: string)
    requires !Contains(host, "https://") && !Contains(host + ".", "www.")
    requires '/' !in host && !Contains(host, ".edu")
    ensures UniversityName("https://www." + host + ".edu/") == host
  {
    var tail := host + ".edu/";
    RemoveHttpsOfHttpsUrl(host);
    RemoveWwwOfHttpsUrl(host);
    RemoveSlashOfHttpsUrl(host);
    RemoveEdu(host);
    assert "https://www." + host + ".edu/" == "https://" + ("www." + tail);
  }

  /** Stage 1 on `https://www.<host>.edu/`: the scheme at the front is removed. */
  lemma RemoveHttpsOfHttpsUrl(host: string)
    requires !Contains(host, "https://")
    ensures ReplaceAll("https://" + ("www." + (host + ".edu/")), "https://", "") == "www." + (host + ".edu/")
  {
    var tail := host + ".edu/";
    var rest := "www." + tail;
    assert ReplaceAll("https://" + rest, "https://", "") == ReplaceAll(rest, "https://", "") by {
      ReplaceAtFront("https://", rest, "");
    }
    assert !Contains("www." + host, "https://") by {
      ContainsSkipsFree("www.", host, "https://");
    }
    assert ReplaceAll(rest, "https://", "") == rest by {
      assert rest == ("www." + host) + ".edu/";
      ReplaceSkipsUnmatched("www." + host, ".edu/", "https://", "");
    }
  }

  /** Stage 2 on `www.<host>.edu/`: the leading `www.` is removed. */
  lemma RemoveWwwOfHttpsUrl(host: string)
    requires !Contains(host + ".", "www.")
    ensures ReplaceAll("www." + (host + ".edu/"), "www.", "") == host + ".edu/"
  {
    ReplaceAtFront("www.", host + ".edu/", "");
    assert ReplaceAll(host + ".edu/", "www.", "") == host + ".edu/" by {
      assert host + ".edu/" == (host + ".") + "edu/";
      ReplaceSkipsUnmatched(host + ".", "edu/", "www.", "");
      ReplaceAbsent("edu/", "www.", "", 0);
    }
  }

  /** Stage 3 on `<host>.edu/`: the trailing slash is removed. */
  lemma RemoveSlashOfHttpsUrl(host: string)
    requires '/' !in host
    ensures ReplaceAll(host + ".edu/", "/", "") == host + ".edu"
  {
    assert host + ".edu/" == (host + ".edu") + "/";
    ReplaceSkipsFree(host + ".edu", "/", "/", "");
    ReplaceAtFront("/", "", "");
  }

  /** Stage 4 on `<host>.edu`: the suffix is removed. */
  lemma RemoveEdu(host: string)
    requires !Contains(host, ".edu")
    ensures ReplaceAll(host + ".edu", ".edu", "") == host
  {
    ReplaceSkipsUnmatched(host, ".edu", ".edu", "");
    ReplaceAtFront(".edu", "", "");
  }

  /** Only `https://` is removed: an `http://` scheme leaves `http:` in the
      name, so `http://x.edu` gives `http:x`, for any host in which none of
      the removed patterns occurs. */
  lemma UniversityNameKeepsHttpScheme(host: string)
    requires !Contains(host, "https://") && !Contains(host + ".", "www.")
    requires '/' !in host && !Contains(host, ".edu")
    ensures UniversityName("http://" + host + ".edu") == "http:" + host
  {
    KeepHttpScheme(host);
    KeepHttpWww(host);
    RemoveSlashesOfHttpUrl(host);
    ContainsSkipsFree("http:", host, ".edu");
    RemoveEdu("http:" + host);
  }

  /** Stage 1 leaves `http://<host>.edu` as it is. */
  lemma KeepHttpScheme(host: string)
    requires !Contains(host, "https://")
    ensures ReplaceAll("http://" + host + ".edu", "https://", "") == "http://" + host + ".edu"
  {
    var a := "http://" + host;
    assert !StartsWith(a, "https://") by {
      if |"https://"| <= |a| {
        assert a[..8][4] == ':';
      }
    }
    assert a[1..] == "ttp://" + host;
    ContainsSkipsFree("ttp://", host, "https://");
    assert !Contains(a, "https://");
    ReplaceSkipsUnmatched(a, ".edu", "https://", "");
  }

  /** Stage 2 leaves `http://<host>.edu` as it is. */
  lemma KeepHttpWww(host: string)
    requires !Contains(host + ".", "www.")
    ensures ReplaceAll("http://" + host + ".edu", "www.", "") == "http://" + host + ".edu"
  {
    ContainsSkipsFree("http://", host + ".", "www.");
    assert "http://" + host + ".edu" == ("http://" + (host + ".")) + "edu";
    ReplaceSkipsUnmatched("http://" + (host + "."), "edu", "www.", "");
  }

  /** Stage 3 on `http://<host>.edu`: both slashes go, the colon stays. */
  lemma RemoveSlashesOfHttpUrl(host: string)
    requires '/' !in host
    ensures ReplaceAll("http://" + host + ".edu", "/", "") == "http:" + host + ".edu"
  {
    var rest := host + ".edu";
    var slashes := "/" + ("/" + rest);
    assert "http://" + host + ".edu" == "http:" + slashes;
    assert ReplaceAll(slashes, "/", "") == rest by {
      ReplaceAtFront("/", "/" + rest, "");
      ReplaceAtFront("/", rest, "");
      ReplaceAbsent(rest, "/", "", 0);
    }
    ReplaceSkipsFree("http:", slashes, "/", "");
    assert "http:" + rest == "http:" + host + ".edu";
  }
}
