/** The stand-alone spider of `src/crawler/crawler.py`: its start URL, its
    allowed domain and crawl rules, and the post-fetch Content-Type and
    file-extension filters of `parse`. */
module SiteSpider {
  import opened Base
  import opened Strings
  import opened Py
  import opened Scrapy

  /** The class attribute `name`. */
  const ClassName: string := "university_crawler"

  /** The crawl rules `__init__` uses when none are given. */
  const DefaultDenyPatterns: seq<string> := [
    "/login", "/logout", "/admin",
    "\\.pdf$", "\\.jpg$", "\\.png$", "\\.gif$",
    "\\.zip$", "\\.doc$", "\\.docx$"]

  /** A `crawl_rules` dict: pattern lists by name. */
  type CrawlRules = map<string, seq<string>>

  const DefaultCrawlRules: CrawlRules := map["allow_patterns" := [], "deny_patterns" := DefaultDenyPatterns]

  /** The content types `parse` accepts, matched as substrings. */
  const HtmlContentTypes: seq<string> := ["text/html", "text/plain", "application/xhtml"]

  /** The URL endings `parse` rejects. */
  const SkipExtensions: seq<string> := [
    ".pdf", ".doc", ".docx", ".xls", ".xlsx", ".ppt", ".pptx",
    ".zip", ".tar", ".gz", ".rar", ".jpg", ".jpeg", ".png",
    ".gif", ".svg", ".mp4", ".mp3", ".avi", ".mov", ".wav"]

  /** `any(sub in s for sub in subs)`. */
  predicate ContainsAny(s: string, subs: seq<string>) {
    subs != [] && (Contains(s, subs[0]) || ContainsAny(s, subs[1..]))
  }

  /** `any(s.endswith(e) for e in suffixes)`. */
  predicate EndsWithAny(s: string, suffixes: seq<string>) {
    suffixes != [] && (EndsWith(s, suffixes[0]) || EndsWithAny(s, suffixes[1..]))
  }

  /** The lower-cased `Content-Type` header, empty when the header is missing. */
  function ContentTypeText(header: Option<string>): string {
    match header
    case None => ""
    case Some(h) => Lower(h)
  }

  /** The Content-Type check of lines 42-47. */
  predicate AcceptsContentType(header: Option<string>) {
    ContainsAny(ContentTypeText(header), HtmlContentTypes)
  }

  /** The extension check of lines 50-57. */
  predicate HasSkippedExtension(url: string) {
    EndsWithAny(Lower(url), SkipExtensions)
  }

  /** The link extractor built at lines 31-36. */
  function ExtractorFor(domains: seq<Value>, rules: CrawlRules): LinkExtractor {
    LinkExtractor(domains,
                  if "allow_patterns" in rules then rules["allow_patterns"] else [],
                  if "deny_patterns" in rules then rules["deny_patterns"] else [],
                  None, true)
  }

  /** The `page_data` dict of lines 60-65. */
  function PageItem(url: string, p: Page): Dict {
    map["url" := Str(url), "title" := OptStr(p.title), "text" := Str(Join(p.bodyTexts, " ")),
        "links" := StrList(p.hrefs)]
  }

  /** Whether `parse` gets past both filters. */
  predicate Accepted(response: Response) {
    AcceptsContentType(response.contentType) && !HasSkippedExtension(response.url)
  }

  /** Everything one `parse` call yields before it returns or raises. */
  function ParseOutput(response: Response, extractor: LinkExtractor, env: Env): seq<Yield> {
    if !Accepted(response) || response.page.None? then []
    else [Item(PageItem(response.url, response.page.value))]
         + RequestsTo(env.extractLinks(extractor, response), NoMeta)
  }

  class UniversitySpider {
    var name: string
    var startUrls: seq<string>
    var allowedDomains: seq<Value>
    var crawlRules: CrawlRules
    var linkExtractor: LinkExtractor

    /** `__init__(base_url, crawl_rules)`; `crawlRules` is `None` for Python's
        `None`. */
    constructor (baseUrl: string, crawlRules: Option<CrawlRules>, netloc: string -> string)
      ensures name == ClassName
      ensures startUrls == [baseUrl]
      ensures allowedDomains == [Str(netloc(baseUrl))]
      ensures this.crawlRules == (if crawlRules.None? then DefaultCrawlRules else crawlRules.value)
      ensures linkExtractor == ExtractorFor(allowedDomains, this.crawlRules)
    {
      name := ClassName;
      startUrls := [baseUrl];
      allowedDomains := [Str(netloc(baseUrl))];
      var rules := if crawlRules.None? then DefaultCrawlRules else crawlRules.value;
      this.crawlRules := rules;
      linkExtractor := ExtractorFor([Str(netloc(baseUrl))], rules);
    }

    /** `parse(response)`: `raised` reports the exception that reading a
        non-text response throws once both filters have passed. */
    method Parse(response: Response, env: Env) returns (out: seq<Yield>, raised: bool)
      ensures raised <==> Accepted(response) && response.page.None?
      ensures out == ParseOutput(response, linkExtractor, env)
    {
      var contentType := ContentTypeText(response.contentType);
      if !ContainsAny(contentType, HtmlContentTypes) {
        return [], false;
      }
      var urlLower := Lower(response.url);
      if EndsWithAny(urlLower, SkipExtensions) {
        return [], false;
      }
      if response.page.None? {
        return [], true;
      }
      out, raised := [Item(PageItem(response.url, response.page.value))], false;
      var links := env.extractLinks(linkExtractor, response);
      var i := 0;
      while i < |links|
        invariant 0 <= i <= |links|
        invariant out == [Item(PageItem(response.url, response.page.value))] + RequestsTo(links[..i], NoMeta)
      {
        out := out + [Request(links[i], NoMeta)];
        i := i + 1;
      }
      assert links[..i] == links;
    }
  }

  // -----------------------------------------------------------------------
  // Properties
  // -----------------------------------------------------------------------

  lemma {:induction false} ContainsAnyIff(s: string, subs: seq<string>)
    ensures ContainsAny(s, subs) <==> exists i :: 0 <= i < |subs| && Contains(s, subs[i])
  {
    if subs != [] {
      ContainsAnyIff(s, subs[1..]);
      if !Contains(s, subs[0]) && ContainsAny(s, subs[1..]) {
        var i :| 0 <= i < |subs[1..]| && Contains(s, subs[1..][i]);
        assert Contains(s, subs[i + 1]);
      }
      if exists i :: 0 <= i < |subs| && Contains(s, subs[i]) {
        var i :| 0 <= i < |subs| && Contains(s, subs[i]);
        if i > 0 { assert Contains(s, subs[1..][i - 1]); }
      }
    }
  }

  lemma {:induction false} EndsWithAnyIff(s: string, suffixes: seq<string>)
    ensures EndsWithAny(s, suffixes) <==> exists i :: 0 <= i < |suffixes| && EndsWith(s, suffixes[i])
  {
    if suffixes != [] {
      EndsWithAnyIff(s, suffixes[1..]);
      if !EndsWith(s, suffixes[0]) && EndsWithAny(s, suffixes[1..]) {
        var i :| 0 <= i < |suffixes[1..]| && EndsWith(s, suffixes[1..][i]);
        assert EndsWith(s, suffixes[i + 1]);
      }
      if exists i :: 0 <= i < |suffixes| && EndsWith(s, suffixes[i]) {
        var i :| 0 <= i < |suffixes| && EndsWith(s, suffixes[i]);
        if i > 0 { assert EndsWith(s, suffixes[1..][i - 1]); }
      }
    }
  }

  lemma LowerIdempotent(s: string)
    ensures Lower(Lower(s)) == Lower(s)
  {
  }

  /** The filters compare lower-cased text, so they do not see letter case. */
  lemma FiltersIgnoreCase(header: string, url: string)
    ensures AcceptsContentType(Some(header)) <==> AcceptsContentType(Some(Lower(header)))
    ensures HasSkippedExtension(url) <==> HasSkippedExtension(Lower(url))
  {
    LowerIdempotent(header);
    LowerIdempotent(url);
  }

  /** A Content-Type accepted only through one of the three HTML types, and a
      URL rejected only through one of the 21 extensions. */
  lemma FiltersMeaning(header: Option<string>, url: string)
    ensures AcceptsContentType(header) <==>
      exists i :: 0 <= i < |HtmlContentTypes| && Contains(ContentTypeText(header), HtmlContentTypes[i])
    ensures HasSkippedExtension(url) <==>
      exists i :: 0 <= i < |SkipExtensions| && EndsWith(Lower(url), SkipExtensions[i])
    ensures |SkipExtensions| == 21 && |HtmlContentTypes| == 3
  {
    ContainsAnyIff(ContentTypeText(header), HtmlContentTypes);
    EndsWithAnyIff(Lower(url), SkipExtensions);
  }

  /** A response without a Content-Type header is rejected. */
  lemma MissingContentTypeRejected()
    ensures !AcceptsContentType(None)
  {
    ContainsAnyIff("", HtmlContentTypes);
  }

  /** An accepted response yields one page item, then one request per
      extracted link in extractor order, none carrying depth metadata --
      whatever the response's depth. */
  lemma ParseAccepted(response: Response, extractor: LinkExtractor, env: Env)
    requires Accepted(response) && response.page.Some?
    ensures var out := ParseOutput(response, extractor, env);
      var links := env.extractLinks(extractor, response);
      && |out| == 1 + |links|
      && out[0] == Item(PageItem(response.url, response.page.value))
      && forall i :: 0 <= i < |links| ==> out[i + 1] == Request(links[i], NoMeta)
  {
    var links := env.extractLinks(extractor, response);
    var head := [Item(PageItem(response.url, response.page.value))];
    var requests := RequestsTo(links, NoMeta);
    assert ParseOutput(response, extractor, env) == head + requests;
    forall i | 0 <= i < |links| ensures (head + requests)[i + 1] == Request(links[i], NoMeta) {
      assert (head + requests)[i + 1] == requests[i];
    }
  }

  /** A rejected response yields nothing. */
  lemma ParseRejected(response: Response, extractor: LinkExtractor, env: Env)
    requires !AcceptsContentType(response.contentType) || HasSkippedExtension(response.url)
    ensures ParseOutput(response, extractor, env) == []
  {
  }

  /** The default rules allow everything and deny exactly ten patterns. */
  lemma DefaultRules()
    ensures DefaultCrawlRules["allow_patterns"] == []
    ensures |DefaultCrawlRules["deny_patterns"]| == 10
  {
  }
}
