/** The Redis-fed spider of `src/crawler/spiders/university_spider.py`: spider
    and Redis key naming, the allowed domains chosen at construction, the domain
    lock taken from the first response, the depth gate and the self-link
    filter of `parse`. */
module RedisSpider {
  import opened Base
  import opened Strings
  import opened Py
  import opened Scrapy

  /** The class attributes `name` and `redis_key`. */
  const ClassName: string := "university_spider"
  const ClassRedisKey: string := "university_spider:start_urls"

  /** The class attribute `BAD_EXTENSIONS`. */
  const BadExtensions: seq<string> := [
    ".pdf", ".doc", ".docx", ".ppt", ".pptx",
    ".xls", ".xlsx", ".zip", ".rar", ".gz", ".7z", ".mp4", ".mp3",
    ".avi", ".mov", ".png", ".jpg", ".jpeg", ".gif", ".svg"]

  /** Scrapy settings, read with `settings.get(key)`. */
  type Settings = Dict

  /** `if settings:` -- a settings object is false when absent or empty. */
  predicate SettingsGiven(settings: Option<Settings>) {
    settings.Some? && settings.value != map[]
  }

  datatype Identity = Identity(name: string, redisKey: string)

  /** `name` and `redis_key` after `__init__`: renamed per crawler only when
      both the crawler id and the university name are truthy. */
  function SpiderIdentity(crawlerId: Option<int>, universityName: Option<string>): (r: Identity)
    ensures r.redisKey == r.name + ":start_urls"
    ensures crawlerId.Some? && crawlerId.value != 0 && universityName.Some? && universityName.value != "" ==>
      r.name == ClassName + "_" + universityName.value + "_" + IntToString(crawlerId.value)
    ensures !(crawlerId.Some? && crawlerId.value != 0 && universityName.Some? && universityName.value != "") ==>
      r == Identity(ClassName, ClassRedisKey)
  {
    match (crawlerId, universityName)
    case (Some(id), Some(u)) =>
      if id != 0 && u != "" then
        var name := ClassName + "_" + u + "_" + IntToString(id);
        Identity(name, name + ":start_urls")
      else Identity(ClassName, ClassRedisKey)
    case _ => Identity(ClassName, ClassRedisKey)
  }

  /** The class attribute `custom_settings`, which Scrapy lays over the
      process settings of every crawler of this spider. */
  const CustomSettings: Settings :=
    map["SCHEDULER_QUEUE_CLASS" := Str("scrapy_redis.queue.FifoQueue"), "ROBOTSTXT_OBEY" := Bool(true)]

  /** `crawler.settings` of a crawler of this spider: the process settings with
      `custom_settings` over them.  It is never empty. */
  function CrawlerSettings(processSettings: Settings): (r: Settings)
    ensures SettingsGiven(Some(r))
    ensures forall k :: k in CustomSettings ==> k in r && r[k] == CustomSettings[k]
    ensures forall k :: k !in CustomSettings ==>
      (k in r <==> k in processSettings) && (k in processSettings ==> r[k] == processSettings[k])
  {
    assert "ROBOTSTXT_OBEY" in processSettings + CustomSettings;
    processSettings + CustomSettings
  }

  /** `allowed_domains` after `__init__`: `[settings.get('ALLOWED_DOMAINS')]`
      when the settings are truthy.  With falsy settings line 59 reads
      `self.settings`, which nothing has assigned (Scrapy's `Spider` sets it
      only when a crawler is attached, after `__init__`), and raises
      `AttributeError` whether or not an `allowed_domains` keyword was given. */
  function InitialDomains(settings: Option<Settings>, allowedDomainsArg: Option<seq<Value>>): (r: Result<seq<Value>, Error>)
    ensures SettingsGiven(settings) ==> r == Success([Get(settings.value, "ALLOWED_DOMAINS", Null)])
    ensures !SettingsGiven(settings) ==> r == Failure(AttributeError)
  {
    if SettingsGiven(settings) then Success([Get(settings.value, "ALLOWED_DOMAINS", Null)])
    else Failure(AttributeError)
  }

  /** The choice the launcher and the comment of line 81 evidently expect: the
      `allowed_domains` keyword when one is passed, and lines 48-51 otherwise. */
  function IntendedDomains(settings: Option<Settings>, allowedDomainsArg: Option<seq<Value>>): (r: Result<seq<Value>, Error>)
    ensures allowedDomainsArg.Some? ==> r == Success(allowedDomainsArg.value)
    ensures allowedDomainsArg.None? ==> r == InitialDomains(settings, allowedDomainsArg)
  {
    if allowedDomainsArg.Some? then Success(allowedDomainsArg.value) else InitialDomains(settings, allowedDomainsArg)
  }

  /** The link extractor built at lines 66-69 and 92-95. */
  function ExtractorFor(domains: seq<Value>): LinkExtractor {
    LinkExtractor(domains, [], [], Some(BadExtensions), true)
  }

  /** The `page_data` dict of lines 99-104. */
  function PageItem(url: string, p: Page): Dict {
    map["url" := Str(url), "title" := OptStr(p.title), "links" := StrList(p.hrefs), "html" := Str(p.html)]
  }

  /** The extracted links that are kept by the self-link check at line 126. */
  function NonSelfLinks(links: seq<string>, canonicalize: string -> string, pageCanonical: string): seq<string> {
    if links == [] then []
    else if canonicalize(links[0]) == pageCanonical then NonSelfLinks(links[1..], canonicalize, pageCanonical)
    else [links[0]] + NonSelfLinks(links[1..], canonicalize, pageCanonical)
  }

  /** Everything one `parse` call yields, given the link extractor in force once
      the domain lock has run. */
  function ParseOutput(response: Response, extractor: LinkExtractor, env: Env): seq<Yield> {
    match response.page
    case None => []
    case Some(p) =>
      [Item(PageItem(response.url, p))]
      + if Depth(response) >= MaxDepth(response) then []
        else RequestsTo(NonSelfLinks(env.extractLinks(extractor, response), env.canonicalize,
                                     env.canonicalize(response.url)), ChildMeta(response))
  }

  class UniversitySpider {
    var name: string
    var redisKey: string
    var allowedDomains: seq<Value>
    var linkExtractor: LinkExtractor

    /** `__init__` with truthy settings; with falsy ones it raises (see
        `InitialDomains`). */
    constructor (settings: Option<Settings>, crawlerId: Option<int>, universityName: Option<string>,
                 allowedDomainsArg: Option<seq<Value>>)
      requires SettingsGiven(settings)
      ensures Identity(name, redisKey) == SpiderIdentity(crawlerId, universityName)
      ensures allowedDomains == InitialDomains(settings, allowedDomainsArg).value
      ensures linkExtractor == ExtractorFor(allowedDomains)
    {
      var id := SpiderIdentity(crawlerId, universityName);
      name := id.name;
      redisKey := id.redisKey;
      var domains := [Get(settings.value, "ALLOWED_DOMAINS", Null)];
      allowedDomains := domains;
      linkExtractor := ExtractorFor(domains);
    }

    /** `from_crawler(crawler, **kwargs)` for a crawler of a process with
        settings `processSettings`: `cls(crawler.settings, **kwargs)`.  The
        crawler's settings are never empty, so the build never raises, and
        `allowed_domains` comes from them whatever keyword was passed. */
    static method FromCrawler(processSettings: Settings, crawlerId: Option<int>, universityName: Option<string>,
                              allowedDomainsArg: Option<seq<Value>>) returns (spider: UniversitySpider)
      ensures fresh(spider)
      ensures Identity(spider.name, spider.redisKey) == SpiderIdentity(crawlerId, universityName)
      ensures spider.allowedDomains == [Get(processSettings, "ALLOWED_DOMAINS", Null)]
      ensures spider.linkExtractor == ExtractorFor(spider.allowedDomains)
    {
      spider := new UniversitySpider(Some(CrawlerSettings(processSettings)), crawlerId, universityName, allowedDomainsArg);
    }

    /** `parse(response)`: the domain lock, then the page item, then one request
        per extracted link that is not the page itself, unless the depth bound
        has been reached. */
    method Parse(response: Response, env: Env) returns (out: seq<Yield>)
      modifies this`allowedDomains, this`linkExtractor
      ensures allowedDomains == LockedDomains(old(allowedDomains), response.url, env.netloc)
      ensures linkExtractor == if old(allowedDomains) == [] then ExtractorFor(allowedDomains)
                               else old(linkExtractor)
      ensures out == ParseOutput(response, linkExtractor, env)
    {
      if allowedDomains == [] {
        var baseDomain := env.netloc(response.url);
        if StartsWith(baseDomain, "www.") {
          baseDomain := baseDomain[4..];
        }
        assert baseDomain == StripWww(env.netloc(response.url));
        allowedDomains := [Str(baseDomain)];
        linkExtractor := ExtractorFor(allowedDomains);
      }
      if response.page.None? {
        return [];
      }
      out := [Item(PageItem(response.url, response.page.value))];
      if Depth(response) >= MaxDepth(response) {
        return;
      }
      var links := env.extractLinks(linkExtractor, response);
      ghost var pageCanonical := env.canonicalize(response.url);
      ghost var domainsNow, extractorNow := allowedDomains, linkExtractor;
      var i := 0;
      while i < |links|
        invariant 0 <= i <= |links|
        invariant allowedDomains == domainsNow && linkExtractor == extractorNow
        invariant out == [Item(PageItem(response.url, response.page.value))]
                         + RequestsTo(NonSelfLinks(links[..i], env.canonicalize, pageCanonical), ChildMeta(response))
      {
        var canonicalCurrent := env.canonicalize(response.url);
        var canonicalLink := env.canonicalize(links[i]);
        NonSelfLinksAppend(links[..i], [links[i]], env.canonicalize, pageCanonical);
        assert links[..i + 1] == links[..i] + [links[i]];
        if canonicalLink != canonicalCurrent {
          out := out + [Request(links[i], DepthMeta(Depth(response) + 1, MaxDepth(response)))];
        }
        i := i + 1;
      }
      assert links[..i] == links;
    }
  }

  // -----------------------------------------------------------------------
  // Properties
  // -----------------------------------------------------------------------

  /** The self-link filter distributes over concatenation: it keeps the
      extractor's order. */
  lemma {:induction false} NonSelfLinksAppend(a: seq<string>, b: seq<string>, canonicalize: string -> string, c: string)
    ensures NonSelfLinks(a + b, canonicalize, c) == NonSelfLinks(a, canonicalize, c) + NonSelfLinks(b, canonicalize, c)
  {
    if a == [] {
      assert a + b == b;
    } else {
      assert (a + b)[0] == a[0];
      assert (a + b)[1..] == a[1..] + b;
      NonSelfLinksAppend(a[1..], b, canonicalize, c);
    }
  }

  /** Exactly one kept link per extracted occurrence that does not canonicalise
      to the page, and none for one that does. */
  lemma {:induction false} NonSelfLinksCount(links: seq<string>, canonicalize: string -> string, c: string, x: string)
    ensures multiset(NonSelfLinks(links, canonicalize, c))[x] ==
            if canonicalize(x) == c then 0 else multiset(links)[x]
  {
    if links != [] {
      NonSelfLinksCount(links[1..], canonicalize, c, x);
      assert links == [links[0]] + links[1..];
      assert multiset(links) == multiset([links[0]]) + multiset(links[1..]);
    }
  }

  /** No kept link canonicalises to the page. */
  lemma {:induction false} NonSelfLinksExcludePage(links: seq<string>, canonicalize: string -> string, c: string)
    ensures forall i :: 0 <= i < |NonSelfLinks(links, canonicalize, c)| ==>
              canonicalize(NonSelfLinks(links, canonicalize, c)[i]) != c
  {
    if links != [] {
      NonSelfLinksExcludePage(links[1..], canonicalize, c);
    }
  }

  /** With settings given, `allowed_domains` is a one-element list, so the lock
      in `parse` never fires and the `allowed_domains` argument is ignored;
      without them construction fails whatever the argument. */
  lemma SettingsDisableDomainLock(settings: Option<Settings>, arg: Option<seq<Value>>, url: string, netloc: string -> string)
    ensures InitialDomains(settings, arg) == InitialDomains(settings, None)
    ensures SettingsGiven(settings) <==> InitialDomains(settings, arg).Success?
    ensures SettingsGiven(settings) ==> |InitialDomains(settings, arg).value| == 1
    ensures SettingsGiven(settings) ==>
      LockedDomains(InitialDomains(settings, arg).value, url, netloc) == InitialDomains(settings, arg).value
  {
  }

  /** A spider built by `from_crawler` takes `ALLOWED_DOMAINS` of the process
      settings, never the keyword, since `custom_settings` does not set it. */
  lemma CrawlerDomains(processSettings: Settings, arg: Option<seq<Value>>)
    ensures InitialDomains(Some(CrawlerSettings(processSettings)), arg) ==
      Success([Get(processSettings, "ALLOWED_DOMAINS", Null)])
  {
    assert "ALLOWED_DOMAINS" !in CustomSettings;
  }

  /** Each `parse` yields the page item first and only requests after it;
      nothing at all when the page cannot be read. */
  lemma ParseYieldsPageFirst(response: Response, extractor: LinkExtractor, env: Env)
    ensures var out := ParseOutput(response, extractor, env);
      && (out != [] <==> response.page.Some?)
      && (out != [] ==> out[0] == Item(PageItem(response.url, response.page.value)))
      && (forall i :: 1 <= i < |out| ==> out[i].Request?)
  {
  }

  /** No request is yielded once `depth >= max_depth`. */
  lemma ParseDepthGate(response: Response, extractor: LinkExtractor, env: Env)
    requires Depth(response) >= MaxDepth(response)
    ensures forall y :: y in ParseOutput(response, extractor, env) ==> !y.Request?
  {
  }

  /** Every request goes one level deeper, inherits `max_depth`, and stays
      within it. */
  lemma ParseChildDepth(response: Response, extractor: LinkExtractor, env: Env)
    ensures forall y :: y in ParseOutput(response, extractor, env) && y.Request? ==>
      && y.meta == DepthMeta(Depth(response) + 1, MaxDepth(response))
      && y.meta.depth <= y.meta.maxDepth
  {
  }

  /** No request URL canonicalises to the page being parsed. */
  lemma ParseNoSelfLinks(response: Response, extractor: LinkExtractor, env: Env)
    ensures forall y :: y in ParseOutput(response, extractor, env) && y.Request? ==>
      env.canonicalize(y.url) != env.canonicalize(response.url)
  {
    var out := ParseOutput(response, extractor, env);
    if response.page.Some? && Depth(response) < MaxDepth(response) {
      var kept := NonSelfLinks(env.extractLinks(extractor, response), env.canonicalize, env.canonicalize(response.url));
      NonSelfLinksExcludePage(env.extractLinks(extractor, response), env.canonicalize, env.canonicalize(response.url));
      forall y | y in out && y.Request? ensures env.canonicalize(y.url) != env.canonicalize(response.url) {
        var i :| 0 <= i < |out| && out[i] == y;
        assert y == Request(kept[i - 1], ChildMeta(response));
      }
    }
  }
}
