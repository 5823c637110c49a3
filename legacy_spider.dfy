/** The older Redis-fed spider of `src/crawler/crawler/spiders/university_spider.py`:
    the same domain lock and depth gate as the newer one, but no self-link
    filter, an unguarded page read, and a link extractor fixed at class
    creation. */
module LegacySpider {
  import opened Base
  import opened Strings
  import opened Py
  import opened Scrapy

  /** The class attributes `name` and `redis_key`. */
  const ClassName: string := "university_crawler"
  const ClassRedisKey: string := "university_crawler:start_urls"

  /** The class attribute `BAD_EXTENSIONS`. */
  const BadExtensions: seq<string> := [
    ".pdf", ".doc", ".docx", ".ppt", ".pptx",
    ".xls", ".xlsx", ".zip", ".rar", ".gz", ".7z", ".mp4", ".mp3",
    ".avi", ".mov", ".png", ".jpg", ".jpeg", ".gif", ".svg"]

  /** The class attribute `allowed_domains`, empty until the first response. */
  const ClassAllowedDomains: seq<Value> := []

  /** The class attribute `link_extractor`, built when the class body runs,
      from the then-empty `allowed_domains`. */
  const ClassLinkExtractor: LinkExtractor := LinkExtractor(ClassAllowedDomains, [], [], Some(BadExtensions), true)

  /** The `page_data` dict of lines 46-51. */
  function PageItem(url: string, p: Page): Dict {
    map["url" := Str(url), "title" := OptStr(p.title), "links" := StrList(p.hrefs), "html" := Str(p.html)]
  }

  /** Everything one `parse` call yields before it returns or raises: nothing
      when the page cannot be read, otherwise the page item and, below the
      depth bound, one request per extracted link. */
  function ParseOutput(response: Response, extractor: LinkExtractor, env: Env): seq<Yield> {
    match response.page
    case None => []
    case Some(p) =>
      [Item(PageItem(response.url, p))]
      + if Depth(response) >= MaxDepth(response) then []
        else RequestsTo(env.extractLinks(extractor, response), ChildMeta(response))
  }

  class UniversitySpider {
    var name: string
    var redisKey: string
    var allowedDomains: seq<Value>
    var linkExtractor: LinkExtractor

    /** A new instance sees the class attributes: the class has no `__init__`,
        so neither its name nor its Redis key depends on how it is built. */
    constructor ()
      ensures name == ClassName && redisKey == ClassRedisKey
      ensures allowedDomains == ClassAllowedDomains
      ensures linkExtractor == ClassLinkExtractor
    {
      name := ClassName;
      redisKey := ClassRedisKey;
      allowedDomains := ClassAllowedDomains;
      linkExtractor := ClassLinkExtractor;
    }

    /** `parse(response)`.  `raised` reports the exception that reading a
        non-text response throws out of the generator. */
    method Parse(response: Response, env: Env) returns (out: seq<Yield>, raised: bool)
      modifies this`allowedDomains
      ensures allowedDomains == LockedDomains(old(allowedDomains), response.url, env.netloc)
      ensures linkExtractor == old(linkExtractor)
      ensures raised <==> response.page.None?
      ensures out == ParseOutput(response, linkExtractor, env)
    {
      if allowedDomains == [] {
        var baseDomain := env.netloc(response.url);
        if StartsWith(baseDomain, "www.") {
          baseDomain := baseDomain[4..];
        }
        assert baseDomain == StripWww(env.netloc(response.url));
        allowedDomains := [Str(baseDomain)];
      }
      if response.page.None? {
        return [], true;
      }
      out, raised := [Item(PageItem(response.url, response.page.value))], false;
      if Depth(response) >= MaxDepth(response) {
        return;
      }
      var links := env.extractLinks(linkExtractor, response);
      ghost var domainsNow := allowedDomains;
      var i := 0;
      while i < |links|
        invariant 0 <= i <= |links|
        invariant allowedDomains == domainsNow
        invariant out == [Item(PageItem(response.url, response.page.value))]
                         + RequestsTo(links[..i], ChildMeta(response))
      {
        out := out + [Request(links[i], DepthMeta(Depth(response) + 1, MaxDepth(response)))];
        i := i + 1;
      }
      assert links[..i] == links;
    }
  }

  // -----------------------------------------------------------------------
  // Properties
  // -----------------------------------------------------------------------

  /** Each `parse` yields the page item first, and only requests after it. */
  lemma ParseYieldsPageFirst(response: Response, extractor: LinkExtractor, env: Env)
    ensures var out := ParseOutput(response, extractor, env);
      && (out != [] <==> response.page.Some?)
      && (out != [] ==> out[0] == Item(PageItem(response.url, response.page.value)))
      && (forall i :: 1 <= i < |out| ==> out[i].Request?)
  {
  }

  /** No request is yielded once `depth >= max_depth`; below it every request
      is one level deeper with the same bound. */
  lemma ParseDepth(response: Response, extractor: LinkExtractor, env: Env)
    ensures Depth(response) >= MaxDepth(response) ==>
      forall y :: y in ParseOutput(response, extractor, env) ==> !y.Request?
    ensures forall y :: y in ParseOutput(response, extractor, env) && y.Request? ==>
      y.meta == ChildMeta(response) && y.meta.depth <= y.meta.maxDepth
  {
  }

  /** Without a self-link filter, every extracted link, the page itself
      included, is requested once, in extractor order. */
  lemma ParseFollowsEveryLink(response: Response, extractor: LinkExtractor, env: Env)
    requires response.page.Some? && Depth(response) < MaxDepth(response)
    ensures var out := ParseOutput(response, extractor, env);
      var links := env.extractLinks(extractor, response);
      && |out| == 1 + |links|
      && forall i :: 0 <= i < |links| ==> out[i + 1] == Request(links[i], ChildMeta(response))
  {
    var links := env.extractLinks(extractor, response);
    var head := [Item(PageItem(response.url, response.page.value))];
    var requests := RequestsTo(links, ChildMeta(response));
    assert ParseOutput(response, extractor, env) == head + requests;
    forall i | 0 <= i < |links| ensures (head + requests)[i + 1] == Request(links[i], ChildMeta(response)) {
      assert (head + requests)[i + 1] == requests[i];
    }
  }

  /** The domain lock does not reach the link extractor: the instance keeps the
      class-level extractor, built with no allowed domain, while
      `allowed_domains` becomes non-empty. */
  lemma LockLeavesExtractorUnrestricted(url: string, netloc: string -> string)
    ensures LockedDomains(ClassAllowedDomains, url, netloc) == [Str(StripWww(netloc(url)))]
    ensures ClassLinkExtractor.allowDomains == []
  {
  }
}
