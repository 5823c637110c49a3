/** `CrawlerCreator` of `src/crawler/crawlerCreator.py`: loading and
    validating the JSON configuration, the Scrapy settings it derives, and the
    arguments `start` hands to the site spider. */
module CrawlerCreator {
  import opened Base
  import opened Py

  /** The keys `_load_config` requires, in the order it checks them. */
  const RequiredKeys: seq<string> := ["base_url", "settings"]

  /** The keys of `keys` that `config` lacks, in order (the comprehension of
      line 33); a value that supports no `in` raises `TypeError`. */
  function MissingKeys(keys: seq<string>, config: Value): (r: Result<seq<string>, Error>)
    ensures r.Failure? <==> keys != [] && Membership(keys[0], config).Failure?
    ensures r.Success? ==> forall k :: k in r.value <==> k in keys && Membership(k, config) == Success(false)
    ensures r.Success? ==> |r.value| <= |keys|
  {
    if keys == [] then Success([])
    else match Membership(keys[0], config)
      case Failure(e) => Failure(e)
      case Success(present) =>
        var rest := MissingKeys(keys[1..], config);
        if rest.Failure? then rest
        else if present then rest
        else Success([keys[0]] + rest.value)
  }

  /** `_load_config(config_path)`: `fileExists` is `Path.exists()`, and `parsed`
      is what `json.load` returns, `None` when the file is not valid JSON. */
  function LoadConfig(configPath: string, fileExists: bool, parsed: Option<Value>): Result<Value, Error> {
    if !fileExists then Failure(FileNotFoundError(configPath))
    else if parsed.None? then Failure(JsonDecodeError)
    else match MissingKeys(RequiredKeys, parsed.value)
      case Failure(e) => Failure(e)
      case Success(missing) =>
        if missing != [] then Failure(MissingConfigKeys(missing)) else Success(parsed.value)
  }

  /** The Scrapy settings `_build_scrapy_settings` returns, from the project
      settings after the foreign `settings.setdict()` call. */
  function BuildSettings(projectSettings: Dict, kwargs: Dict): (r: Dict)
    ensures Truthy(Get(kwargs, "pagecount", Null)) ==>
      "CLOSESPIDER_ITEMCOUNT" in r && r["CLOSESPIDER_ITEMCOUNT"] == kwargs["pagecount"]
    ensures !Truthy(Get(kwargs, "pagecount", Null)) ==> r == projectSettings
    ensures forall k :: k != "CLOSESPIDER_ITEMCOUNT" ==>
      (k in r <==> k in projectSettings) && (k in r ==> r[k] == projectSettings[k])
  {
    var pagecount := Get(kwargs, "pagecount", Null);
    if Truthy(pagecount) then projectSettings["CLOSESPIDER_ITEMCOUNT" := pagecount] else projectSettings
  }

  /** The keyword arguments `start` passes to `process.crawl`: the base URL and
      the crawl rules, `Null` for Python's `None`. */
  datatype CrawlArgs = CrawlArgs(baseUrl: Value, crawlRules: Value)

  class CrawlerCreator {
    var kwargs: Dict
    var config: Dict
    var settings: Dict

    /** The fields `__init__` sets once `_load_config` has returned `config`
        and `_build_scrapy_settings` has read its `settings` entry. */
    constructor (config: Dict, kwargs: Dict, projectSettings: Dict)
      ensures this.kwargs == kwargs && this.config == config
      ensures settings == BuildSettings(projectSettings, kwargs)
    {
      this.kwargs := kwargs;
      this.config := config;
      settings := BuildSettings(projectSettings, kwargs);
    }

    /** The arguments of `start`: `config['base_url']` and
        `config.get('crawl_rules')`. */
    method StartArgs() returns (r: Result<CrawlArgs, Error>)
      ensures r.Success? <==> "base_url" in config
      ensures r.Success? ==> r.value == CrawlArgs(config["base_url"], Get(config, "crawl_rules", Null))
      ensures r.Failure? ==> r.error == KeyError("base_url")
    {
      if "base_url" !in config {
        return Failure(KeyError("base_url"));
      }
      var crawlRules := if "crawl_rules" in config then config["crawl_rules"] else Null;
      r := Success(CrawlArgs(config["base_url"], crawlRules));
    }
  }

  /** `CrawlerCreator(config_path, **kwargs)`: loading can fail as
      `_load_config` says; a configuration that is not a dict, or whose
      `settings` entry is not a dict, fails with `AttributeError` on the
      `.get` calls of lines 44 and 47. */
  method Create(configPath: string, fileExists: bool, parsed: Option<Value>, kwargs: Dict, projectSettings: Dict)
    returns (r: Result<CrawlerCreator, Error>)
    ensures LoadConfig(configPath, fileExists, parsed).Failure? ==>
      r == Failure(LoadConfig(configPath, fileExists, parsed).error)
    ensures LoadConfig(configPath, fileExists, parsed).Success? ==>
      var config := LoadConfig(configPath, fileExists, parsed).value;
      (r.Success? <==> config.Dict? && config.entries["settings"].Dict?) &&
      (r.Failure? ==> r.error == AttributeError) &&
      (r.Success? ==> fresh(r.value) && r.value.config == config.entries &&
                      r.value.settings == BuildSettings(projectSettings, kwargs))
  {
    var loaded := LoadConfig(configPath, fileExists, parsed);
    if loaded.Failure? {
      return Failure(loaded.error);
    }
    var config := loaded.value;
    LoadedHasRequiredKeys(configPath, fileExists, parsed);
    if !config.Dict? || !config.entries["settings"].Dict? {
      return Failure(AttributeError);
    }
    var creator := new CrawlerCreator(config.entries, kwargs, projectSettings);
    r := Success(creator);
  }

  // -----------------------------------------------------------------------
  // Properties
  // -----------------------------------------------------------------------

  /** The missing keys come in the order of `required_keys`. */
  lemma MissingKeysInOrder(config: Value)
    requires MissingKeys(RequiredKeys, config).Success?
    ensures var missing := MissingKeys(RequiredKeys, config).value;
      missing == [] || missing == ["base_url"] || missing == ["settings"] || missing == ["base_url", "settings"]
  {
    assert RequiredKeys[1..] == ["settings"];
    assert ["settings"][1..] == [];
    var last := MissingKeys(["settings"], config);
    assert last.Success?;
    assert last.value == [] || last.value == ["settings"];
  }

  /** Loading fails exactly in the three documented ways (and with
      `TypeError` for a JSON value that supports no `in`), and a successful
      load returns the parsed value unchanged. */
  lemma LoadConfigOutcomes(configPath: string, fileExists: bool, parsed: Option<Value>)
    ensures !fileExists ==> LoadConfig(configPath, fileExists, parsed) == Failure(FileNotFoundError(configPath))
    ensures fileExists && parsed.None? ==> LoadConfig(configPath, fileExists, parsed) == Failure(JsonDecodeError)
    ensures fileExists && parsed.Some? && parsed.value.Dict? ==>
      var missing := MissingKeys(RequiredKeys, parsed.value).value;
      (LoadConfig(configPath, fileExists, parsed).Failure? <==> missing != []) &&
      (missing != [] ==> LoadConfig(configPath, fileExists, parsed) == Failure(MissingConfigKeys(missing))) &&
      (forall k :: k in missing <==> k in RequiredKeys && k !in parsed.value.entries)
    ensures LoadConfig(configPath, fileExists, parsed).Success? ==>
      LoadConfig(configPath, fileExists, parsed).value == parsed.value
  {
  }

  /** A loaded configuration that is a dict holds both required keys. */
  lemma LoadedHasRequiredKeys(configPath: string, fileExists: bool, parsed: Option<Value>)
    requires LoadConfig(configPath, fileExists, parsed).Success?
    ensures var config := LoadConfig(configPath, fileExists, parsed).value;
      config.Dict? ==> "base_url" in config.entries && "settings" in config.entries
  {
    var missing := MissingKeys(RequiredKeys, parsed.value).value;
    assert "base_url" !in missing && "settings" !in missing;
  }

  /** `CLOSESPIDER_ITEMCOUNT` is set exactly when `pagecount` is truthy. */
  lemma PagecountRule(projectSettings: Dict, kwargs: Dict)
    requires "CLOSESPIDER_ITEMCOUNT" !in projectSettings
    ensures "CLOSESPIDER_ITEMCOUNT" in BuildSettings(projectSettings, kwargs) <==> Truthy(Get(kwargs, "pagecount", Null))
  {
  }
}
