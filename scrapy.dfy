/** The Scrapy and urllib surface the spiders are written against: responses,
    the items and requests a `parse` generator yields, the arguments of a
    `LinkExtractor`, and the three foreign functions the spiders call
    (`urlparse(url).netloc`, `canonicalize_url`, `LinkExtractor.extract_links`),
    which stay uninterpreted. */
module Scrapy {
  import opened Base
  import opened Strings
  import opened Py

  /** `response.meta.get('depth', 0)` and `response.meta.get('max_depth', 10)`. */
  const DefaultDepth: int := 0
  const DefaultMaxDepth: int := 10

  /** What the CSS selectors of a text response read: `title::text`,
      `a::attr(href)`, `body *::text`, and `response.text`. */
  datatype Page = Page(title: Option<string>, hrefs: seq<string>, bodyTexts: seq<string>, html: string)

  /** A fetched response.  `page` is `None` for a response that is not a text
      response, on which `response.css` and `response.text` raise.  `depth` and
      `maxDepth` are the `meta` entries of the same names, when present. */
  datatype Response = Response(
    url: string,
    contentType: Option<string>,
    depth: Option<int>,
    maxDepth: Option<int>,
    page: Option<Page>)

  function Depth(r: Response): int {
    match r.depth
    case Some(d) => d
    case None => DefaultDepth
  }

  function MaxDepth(r: Response): int {
    match r.maxDepth
    case Some(m) => m
    case None => DefaultMaxDepth
  }

  /** The `meta` a spider attaches to a request it yields. */
  datatype RequestMeta = NoMeta | DepthMeta(depth: int, maxDepth: int)

  /** What a `parse` generator yields: a scraped item (a dict) or a request
      whose callback is `parse` again. */
  datatype Yield = Item(fields: Dict) | Request(url: string, meta: RequestMeta)

  /** The arguments a `LinkExtractor` is built with.  `denyExtensions` is
      `None` when Scrapy's own default list applies. */
  datatype LinkExtractor = LinkExtractor(
    allowDomains: seq<Value>,
    allow: seq<string>,
    deny: seq<string>,
    denyExtensions: Option<seq<string>>,
    unique: bool)

  /** The foreign functions: `urlparse(url).netloc` (the authority component of
      section 3.2 of RFC 3986), `scrapy.utils.url.canonicalize_url`, and
      `extractor.extract_links(response)` reduced to the extracted URLs in
      document order. */
  datatype Env = Env(
    netloc: string -> string,
    canonicalize: string -> string,
    extractLinks: (LinkExtractor, Response) -> seq<string>)

  /** `host[4:] if host.startswith("www.") else host`. */
  function StripWww(host: string): (r: string)
    ensures StartsWith(host, "www.") ==> host == "www." + r
    ensures !StartsWith(host, "www.") ==> r == host
  {
    if StartsWith(host, "www.") then host[4..] else host
  }

  /** Only one leading `www.` is removed. */
  lemma StripWwwOnce(h: string)
    ensures StripWww("www." + h) == h
    ensures StripWww("www.www." + h) == "www." + h
  {
    assert ("www." + h)[..4] == "www.";
    assert ("www.www." + h)[..4] == "www.";
    assert ("www.www." + h)[4..] == "www." + h;
  }

  /** The domain lock both Redis-fed spiders run at the start of `parse`: an
      empty `allowed_domains` becomes the response's host with one leading
      `www.` removed; a non-empty one is kept. */
  function LockedDomains(domains: seq<Value>, url: string, netloc: string -> string): seq<Value> {
    if domains == [] then [Str(StripWww(netloc(url)))] else domains
  }

  /** Once set, the locked domain list is non-empty, so no later response
      changes it: the first response parsed decides the domain. */
  lemma DomainLockSetOnce(domains: seq<Value>, first: string, later: string, netloc: string -> string)
    ensures LockedDomains(domains, first, netloc) != []
    ensures LockedDomains(LockedDomains(domains, first, netloc), later, netloc) == LockedDomains(domains, first, netloc)
    ensures domains == [] ==> LockedDomains(domains, first, netloc) == [Str(StripWww(netloc(first)))]
  {
  }

  /** The `meta` both Redis-fed spiders give a child request: one level deeper,
      the same bound. */
  function ChildMeta(response: Response): RequestMeta {
    DepthMeta(Depth(response) + 1, MaxDepth(response))
  }

  /** One request per URL, in order, all with the same `meta`. */
  function RequestsTo(urls: seq<string>, meta: RequestMeta): (out: seq<Yield>)
    ensures |out| == |urls|
    ensures forall i :: 0 <= i < |urls| ==> out[i] == Request(urls[i], meta)
  {
    seq(|urls|, i requires 0 <= i < |urls| => Request(urls[i], meta))
  }
}
