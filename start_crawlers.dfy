/** The launcher `main` of `src/crawler/start_crawlers.py`: command-line
    checks, configuration loading, the optional reset and the seed push on
    the shared Redis server, the base domain, and the plan of crawlers handed
    to Scrapy, each of which `from_crawler` builds with the process settings. */
module StartCrawlers {
  import opened Base
  import opened Strings
  import opened Py
  import opened Scrapy
  import opened Redis
  import RedisSpider
  import RedisUtiils
  import GeneralUtils

  /** `UniversitySpider.name` of the Redis-fed spider. */
  const SpiderName: string := RedisSpider.ClassName

  /** What the command line yields: the usage message, an exception, or the
      four arguments. */
  datatype Argv =
    | Usage
    | ArgvError(error: Error)
    | Args(startUrl: string, count: int, configPath: string, testMode: string)

  /** Lines 18-25 as written: the guard admits four entries, and `argv[4]`
      then raises `IndexError`.  `parseInt` is Python's `int()` on a string,
      `None` where it raises `ValueError`. */
  function ParseArgvAsWritten(argv: seq<string>, parseInt: string -> Option<int>): Argv {
    if |argv| < 4 then Usage
    else if parseInt(argv[2]).None? then ArgvError(ValueError)
    else if |argv| < 5 then ArgvError(IndexError)
    else Args(argv[1], parseInt(argv[2]).value, argv[3], argv[4])
  }

  /** Lines 18-25 with the guard the usage line describes (a program name and
      four arguments). */
  function ParseArgv(argv: seq<string>, parseInt: string -> Option<int>): (r: Argv)
    ensures r == Usage <==> |argv| < 5
    ensures r.ArgvError? ==> r.error == ValueError
  {
    if |argv| < 5 then Usage
    else if parseInt(argv[2]).None? then ArgvError(ValueError)
    else Args(argv[1], parseInt(argv[2]).value, argv[3], argv[4])
  }

  /** One `process.crawl(UniversitySpider, crawler_id=…, allowed_domains=…)`. */
  datatype CrawlerLaunch = CrawlerLaunch(crawlerId: int, allowedDomains: seq<Value>)

  /** How `main` ends: the usage message, an exception, or the settings of the
      `CrawlerProcess` and the crawlers it registered before `process.start()`. */
  datatype Outcome = PrintedUsage | Raised(error: Error) | Launched(settings: Dict, crawlers: seq<CrawlerLaunch>)

  /** The crawlers of lines 53-56 for `range(count)`. */
  function Launches(count: int, domains: seq<Value>): (r: seq<CrawlerLaunch>)
    ensures |r| == if count > 0 then count else 0
    ensures forall i :: 0 <= i < |r| ==> r[i] == CrawlerLaunch(i + 1, domains)
  {
    seq(if count > 0 then count else 0, i => CrawlerLaunch(i + 1, domains))
  }

  /** Everything `main` does after the command line, from the parsed
      arguments and the Redis keyspace before the run. */
  function RunWith(args: Argv, loadConfig: string -> Result<Value, Error>, netloc: string -> string, m: Keyspace)
    : (Outcome, Keyspace)
    requires args.Args?
  {
    match loadConfig(args.configPath)
    case Failure(e) => (Raised(e), m)
    case Success(loaded) =>
      match GeneralUtils.AddUniversityName(loaded, args.startUrl)
      case Failure(e) => (Raised(e), m)
      case Success(config) =>
        var settings := config.entries["settings"].entries;
        if "REDIS_URL" !in settings then (Raised(KeyError("REDIS_URL")), m)
        else
          var reset := if args.testMode == "true" then RedisUtiils.Cleared(m, SpiderName) else m;
          (Launched(settings, Launches(args.count, [Str(StripWww(netloc(args.startUrl)))])),
           RedisUtiils.Seeded(reset, args.startUrl, SpiderName))
  }

  /** What `main` does: its outcome and the keyspace after it. */
  function Run(argv: seq<string>, parseInt: string -> Option<int>, loadConfig: string -> Result<Value, Error>,
               netloc: string -> string, m: Keyspace): (Outcome, Keyspace)
  {
    match ParseArgvAsWritten(argv, parseInt)
    case Usage => (PrintedUsage, m)
    case ArgvError(e) => (Raised(e), m)
    case Args(_, _, _, _) => RunWith(ParseArgvAsWritten(argv, parseInt), loadConfig, netloc, m)
  }

  /** Lines 41-44: the start URL's host with one leading `www.` removed. */
  method BaseDomain(startUrl: string, netloc: string -> string) returns (baseDomain: string)
    ensures baseDomain == StripWww(netloc(startUrl))
    ensures !StartsWith(netloc(startUrl), "www.") ==> baseDomain == netloc(startUrl)
    ensures StartsWith(netloc(startUrl), "www.") ==> netloc(startUrl) == "www." + baseDomain
  {
    baseDomain := netloc(startUrl);
    if StartsWith(baseDomain, "www.") {
      baseDomain := baseDomain[4..];
    }
  }

  /** Lines 51-56: one crawler per id `1..count`, all with the same domains. */
  method PlanCrawlers(count: int, domains: seq<Value>) returns (crawlers: seq<CrawlerLaunch>)
    ensures crawlers == Launches(count, domains)
  {
    crawlers := [];
    var i := 0;
    while i < count
      invariant 0 <= i && (count > 0 ==> i <= count)
      invariant count <= 0 ==> i == 0
      invariant crawlers == Launches(i, domains)
    {
      crawlers := crawlers + [CrawlerLaunch(i + 1, domains)];
      i := i + 1;
    }
  }

  /** Lines 30-33: the reset in test mode, then the seed push. */
  method ResetAndSeed(r: RedisStore, startUrl: string, testMode: string)
    modifies r
    ensures r.lists == RedisUtiils.Seeded(if testMode == "true" then RedisUtiils.Cleared(old(r.lists), SpiderName)
                                          else old(r.lists), startUrl, SpiderName)
  {
    if testMode == "true" {
      RedisUtiils.ClearRedis(r, SpiderName);
    }
    RedisUtiils.AddToRedis(r, startUrl, SpiderName);
  }

  /** `main()`.  `loadConfig` is
      `load_config` (the file read and `json.load`), `netloc` is
      `urlparse(...).netloc`, and `r` is the Redis server that
      `config["settings"]["REDIS_URL"]` names. */
  method StartCrawlers(argv: seq<string>, parseInt: string -> Option<int>,
                       loadConfig: string -> Result<Value, Error>, netloc: string -> string, r: RedisStore)
    returns (outcome: Outcome)
    modifies r
    ensures (outcome, r.lists) == Run(argv, parseInt, loadConfig, netloc, old(r.lists))
  {
    if |argv| < 4 {
      return PrintedUsage;
    }
    var startUrl := argv[1];
    var countParsed := parseInt(argv[2]);
    if countParsed.None? {
      return Raised(ValueError);
    }
    var count := countParsed.value;
    var configPath := argv[3];
    if |argv| < 5 {
      return Raised(IndexError);
    }
    var testMode := argv[4];
    assert ParseArgvAsWritten(argv, parseInt) == Args(startUrl, count, configPath, testMode);

    var loaded := loadConfig(configPath);
    if loaded.Failure? {
      return Raised(loaded.error);
    }
    var named := GeneralUtils.AddUniversityName(loaded.value, startUrl);
    if named.Failure? {
      return Raised(named.error);
    }
    var settings := named.value.entries["settings"].entries;
    if "REDIS_URL" !in settings {
      return Raised(KeyError("REDIS_URL"));
    }
    ResetAndSeed(r, startUrl, testMode);
    var baseDomain := BaseDomain(startUrl, netloc);
    var crawlers := PlanCrawlers(count, [Str(baseDomain)]);
    outcome := Launched(settings, crawlers);
  }

  // -----------------------------------------------------------------------
  // Properties
  // -----------------------------------------------------------------------

  /** As written, a command line of exactly four entries passes the guard and
      then fails on `argv[4]`. */
  lemma FourEntriesRaiseIndexError(argv: seq<string>, parseInt: string -> Option<int>,
                                   loadConfig: string -> Result<Value, Error>, netloc: string -> string, m: Keyspace)
    requires |argv| == 4 && parseInt(argv[2]).Some?
    ensures ParseArgvAsWritten(argv, parseInt) == ArgvError(IndexError)
    ensures Run(argv, parseInt, loadConfig, netloc, m) == (Raised(IndexError), m)
  {
  }

  /** With the guard at five entries no command line raises `IndexError`, and
      the two guards agree on every other length. */
  lemma CorrectedGuard(argv: seq<string>, parseInt: string -> Option<int>)
    ensures ParseArgv(argv, parseInt) != ArgvError(IndexError)
    ensures |argv| != 4 ==> ParseArgv(argv, parseInt) == ParseArgvAsWritten(argv, parseInt)
    ensures ParseArgv(argv, parseInt).Args? ==> ParseArgv(argv, parseInt).testMode == argv[4]
  {
  }

  /** A short command line prints the usage line and touches nothing. */
  lemma ShortArgvDoesNothing(argv: seq<string>, parseInt: string -> Option<int>,
                             loadConfig: string -> Result<Value, Error>, netloc: string -> string, m: Keyspace)
    requires |argv| < 4
    ensures Run(argv, parseInt, loadConfig, netloc, m) == (PrintedUsage, m)
  {
  }

  /** A run that launches crawlers has pushed the seed exactly once, after the
      optional reset: in test mode the start-URL list is exactly the seed;
      otherwise the seed is prepended to what was there.  Only the spider's own
      keys change. */
  lemma SeedAfterReset(argv: seq<string>, parseInt: string -> Option<int>,
                       loadConfig: string -> Result<Value, Error>, netloc: string -> string, m: Keyspace)
    requires Run(argv, parseInt, loadConfig, netloc, m).0.Launched?
    ensures var args := ParseArgvAsWritten(argv, parseInt);
      var after := Run(argv, parseInt, loadConfig, netloc, m).1;
      var key := RedisUtiils.StartUrlsKey(SpiderName);
      && args.Args?
      && key in after
      && (args.testMode == "true" ==> after[key] == [args.startUrl])
      && (args.testMode != "true" ==> after[key] == [args.startUrl] + ListAt(m, key))
      && (forall k :: k !in RedisUtiils.SpiderKeys(SpiderName) ==>
            (k in after <==> k in m) && (k in m ==> after[k] == m[k]))
  {
    var args := ParseArgvAsWritten(argv, parseInt);
    var key := RedisUtiils.StartUrlsKey(SpiderName);
    var reset := if args.testMode == "true" then RedisUtiils.Cleared(m, SpiderName) else m;
    RedisUtiils.ClearThenSeed(m, args.startUrl, SpiderName);
    RedisUtiils.ClearRemovesExactlySpiderKeys(m, SpiderName);
    RedisUtiils.SeedPrepends(reset, args.startUrl, SpiderName);
    assert key in RedisUtiils.SpiderKeys(SpiderName);
  }

  /** The dashboard passes `str(test_mode)`, which is never `"true"`, so a
      dashboard launch never clears Redis. */
  lemma DashboardNeverResets(argv: seq<string>, parseInt: string -> Option<int>,
                             loadConfig: string -> Result<Value, Error>, netloc: string -> string, m: Keyspace,
                             testMode: bool)
    requires |argv| >= 5 && argv[4] == BoolToStr(testMode)
    requires Run(argv, parseInt, loadConfig, netloc, m).0.Launched?
    ensures Run(argv, parseInt, loadConfig, netloc, m).1 == RedisUtiils.Seeded(m, argv[1], SpiderName)
  {
    assert BoolToStr(testMode)[0] != 't';
  }

  /** The crawlers have ids `1..count` in order and all share the base domain,
      the start URL's host with one leading `www.` removed. */
  lemma LaunchPlan(argv: seq<string>, parseInt: string -> Option<int>,
                   loadConfig: string -> Result<Value, Error>, netloc: string -> string, m: Keyspace)
    requires Run(argv, parseInt, loadConfig, netloc, m).0.Launched?
    ensures var args := ParseArgvAsWritten(argv, parseInt);
      var crawlers := Run(argv, parseInt, loadConfig, netloc, m).0.crawlers;
      && args.Args?
      && |crawlers| == (if args.count > 0 then args.count else 0)
      && forall i :: 0 <= i < |crawlers| ==>
           crawlers[i].crawlerId == i + 1 && crawlers[i].allowedDomains == [Str(StripWww(netloc(args.startUrl)))]
  {
  }

  /** Every launched spider is built by `from_crawler` with the process
      settings: it keeps the class key -- the list the seed was pushed onto --
      and its `allowed_domains` is `[settings.get('ALLOWED_DOMAINS')]`, not the
      base domain of lines 41-44 passed as keyword.  That list is non-empty, so
      the domain lock of `parse` never replaces it either. */
  lemma LaunchedSpiders(argv: seq<string>, parseInt: string -> Option<int>,
                        loadConfig: string -> Result<Value, Error>, netloc: string -> string, m: Keyspace, url: string)
    requires Run(argv, parseInt, loadConfig, netloc, m).0.Launched?
    ensures var o := Run(argv, parseInt, loadConfig, netloc, m).0;
      var domains := [Get(o.settings, "ALLOWED_DOMAINS", Null)];
      forall c :: c in o.crawlers ==>
        && RedisSpider.SpiderIdentity(Some(c.crawlerId), None).redisKey == RedisUtiils.StartUrlsKey(SpiderName)
        && RedisSpider.InitialDomains(Some(RedisSpider.CrawlerSettings(o.settings)), Some(c.allowedDomains)) == Success(domains)
        && LockedDomains(domains, url, netloc) == domains
  {
    var o := Run(argv, parseInt, loadConfig, netloc, m).0;
    RedisSpider.CrawlerDomains(o.settings, None);
  }

  /** As written, the base domain never reaches a spider: with no
      `ALLOWED_DOMAINS` in the settings every spider is restricted to
      `[None]`, while the launcher passed `[base_domain]`. */
  lemma BaseDomainNeverReachesSpider(argv: seq<string>, parseInt: string -> Option<int>,
                                     loadConfig: string -> Result<Value, Error>, netloc: string -> string, m: Keyspace,
                                     c: CrawlerLaunch)
    requires Run(argv, parseInt, loadConfig, netloc, m).0.Launched?
    requires c in Run(argv, parseInt, loadConfig, netloc, m).0.crawlers
    requires "ALLOWED_DOMAINS" !in Run(argv, parseInt, loadConfig, netloc, m).0.settings
    ensures var settings := Run(argv, parseInt, loadConfig, netloc, m).0.settings;
      && RedisSpider.InitialDomains(Some(RedisSpider.CrawlerSettings(settings)), Some(c.allowedDomains)) == Success([Null])
      && c.allowedDomains == [Str(StripWww(netloc(ParseArgvAsWritten(argv, parseInt).startUrl)))]
      && c.allowedDomains != [Null]
  {
    var settings := Run(argv, parseInt, loadConfig, netloc, m).0.settings;
    RedisSpider.CrawlerDomains(settings, Some(c.allowedDomains));
  }

  /** With the keyword honoured, as intended, every launched spider is
      restricted to the base domain, and the domain lock keeps it. */
  lemma IntendedSpidersKeepBaseDomain(argv: seq<string>, parseInt: string -> Option<int>,
                                      loadConfig: string -> Result<Value, Error>, netloc: string -> string, m: Keyspace,
                                      url: string)
    requires Run(argv, parseInt, loadConfig, netloc, m).0.Launched?
    ensures var o := Run(argv, parseInt, loadConfig, netloc, m).0;
      var base := [Str(StripWww(netloc(ParseArgvAsWritten(argv, parseInt).startUrl)))];
      forall c :: c in o.crawlers ==>
        && RedisSpider.IntendedDomains(Some(RedisSpider.CrawlerSettings(o.settings)), Some(c.allowedDomains)) == Success(base)
        && LockedDomains(base, url, netloc) == base
  {
  }
}
