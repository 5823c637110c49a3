# university-search: the crawler and search core in Dafny

university-search crawls a university web site with Scrapy and stores the
pages in a vector database for hybrid search. This project models the
deterministic core of that system and proves properties of the model:

- **The Redis-fed spiders.** There are two `UniversitySpider` classes built on
  scrapy-redis, a newer one and an older one. For each the model covers:
  - spider and Redis key naming (fixed class values in the older spider,
    per-crawler names in the newer one);
  - the domain lock taken from the first response;
  - the depth gate;
  - the self-link filter, which only the newer spider has;
  - the order of what `parse` yields.

  For the newer spider it also covers `from_crawler`, which builds it with the
  crawler's settings.
- **The stand-alone spider** of `crawler.py`: its Content-Type filter, its
  file-extension filter and its default crawl rules.
- **The Redis utilities.** There are two versions:
  - one deletes a spider's four keys and seeds its start-URL list;
  - the other flushes the server and seeds one list per crawler id.
- **The launcher `main`.** It checks the command line, loads the
  configuration, derives the university name, optionally resets Redis, pushes
  the seed, derives the base domain and plans `count` crawlers. Each crawler's
  spider is built by `from_crawler` with the process settings.
- **`CrawlerCreator`.** It validates the configuration, applies the
  `pagecount` rule and builds the arguments of `start`.
- **The hybrid search helpers.** These are:
  - query normalisation;
  - the first-occurrence merge of the vector and BM25 results;
  - the term-overlap context score;
  - the sort-and-cut of the score fusion.
- **The embedding and vector-store pipelines.** They turn a page item into
  chunk records and then into stored documents.

How the model is written:

- Stateful objects are classes. Their methods are proved against
  specification functions, and lemmas state the properties of those functions.
- The Redis server is the class `Redis.RedisStore`. It holds a map from keys to
  lists.
- Python values (`None`, `bool`, `int`, `float`, `str`, `list`, `dict`) are the
  datatype `Py.Value`. Python's exceptions are `Py.Error`.
- Foreign collaborators are parameters, passed as function values. These are
  `urlparse(...).netloc`, `canonicalize_url`, `extract_links`, the text
  splitter, the embedder, the retrievers, the cross-encoder, `int()`,
  `json.load` and `uuid4()`.

## Model

| member | source | states |
|---|---|---|
| RedisSpider.SpiderIdentity | src/crawler/spiders/university_spider.py:54-56 | `redis_key` is always `name + ":start_urls"`; `name` becomes `university_spider_<name>_<id>` exactly when both the crawler id and the university name are truthy, else both keep their class values |
| RedisSpider.InitialDomains | src/crawler/spiders/university_spider.py:47-59 | with truthy settings `allowed_domains` is `[settings.get('ALLOWED_DOMAINS')]`; with falsy settings line 59 raises `AttributeError`, with or without an `allowed_domains` keyword |
| RedisSpider.CrawlerSettings | src/crawler/spiders/university_spider.py:12-17 | the crawler's settings are the process settings with `custom_settings` over them, and are never empty |
| RedisSpider.UniversitySpider.constructor | src/crawler/spiders/university_spider.py:39-69 | with truthy settings: name, Redis key and allowed domains are as above; the link extractor uses those domains and `BAD_EXTENSIONS` |
| RedisSpider.UniversitySpider.FromCrawler | src/crawler/spiders/university_spider.py:26-37 | a fresh spider built with the crawler's settings: its domains are `[ALLOWED_DOMAINS of the process settings]`, whatever keyword is passed |
| RedisSpider.CrawlerDomains | src/crawler/spiders/university_spider.py:26-51 | a spider built by `from_crawler` takes `ALLOWED_DOMAINS` from the process settings and ignores the keyword |
| RedisSpider.IntendedDomains | src/crawler/spiders/university_spider.py:39-51 | the corrected choice: a passed `allowed_domains` keyword is kept; otherwise lines 48-51 apply |
| RedisSpider.UniversitySpider.Parse | src/crawler/spiders/university_spider.py:76-134 | an empty `allowed_domains` becomes the response host (one `www.` removed) and the extractor is rebuilt; a non-empty one and the extractor stay; the output is `ParseOutput` |
| RedisSpider.NonSelfLinksAppend | src/crawler/spiders/university_spider.py:120-134 | the self-link filter distributes over concatenation, so requests follow extractor order |
| RedisSpider.NonSelfLinksCount | src/crawler/spiders/university_spider.py:120-134 | every extracted occurrence of a link that is not the page is kept exactly once; self-links are never kept |
| RedisSpider.NonSelfLinksExcludePage | src/crawler/spiders/university_spider.py:123-128 | no kept link canonicalises to the page |
| RedisSpider.SettingsDisableDomainLock | src/crawler/spiders/university_spider.py:48-59 | the `allowed_domains` argument never changes the outcome; construction succeeds iff the settings are truthy, and then the one-element list is never replaced by the lock |
| RedisSpider.ParseYieldsPageFirst | src/crawler/spiders/university_spider.py:98-109 | the page item comes first and only requests follow it; an unreadable page yields nothing at all |
| RedisSpider.ParseDepthGate | src/crawler/spiders/university_spider.py:112-114 | no request once `depth >= max_depth` |
| RedisSpider.ParseChildDepth | src/crawler/spiders/university_spider.py:130-134 | each request has depth one more than its parent and the parent's `max_depth`, and stays within it |
| RedisSpider.ParseNoSelfLinks | src/crawler/spiders/university_spider.py:123-128 | no request URL canonicalises to the page being parsed |
| Scrapy.StripWww | src/crawler/spiders/university_spider.py:86-87 | a host starting with `www.` loses exactly those four characters; any other host is unchanged |
| Scrapy.StripWwwOnce | src/crawler/spiders/university_spider.py:86-87 | only one leading `www.` is removed |
| Scrapy.DomainLockSetOnce | src/crawler/spiders/university_spider.py:83-88 | after the lock the domain list is non-empty, so later responses leave it as the first response set it |
| LegacySpider.UniversitySpider.constructor | src/crawler/crawler/spiders/university_spider.py:7-30 | an instance has the class name `university_crawler` and key `university_crawler:start_urls`, the empty class-level `allowed_domains` and the class-level extractor |
| LegacySpider.UniversitySpider.Parse | src/crawler/crawler/spiders/university_spider.py:34-66 | the domain lock sets `allowed_domains` but not the extractor; reading a non-text response raises; the output is `ParseOutput` |
| LegacySpider.ParseYieldsPageFirst | src/crawler/crawler/spiders/university_spider.py:46-53 | the page item comes first and only requests follow it |
| LegacySpider.ParseDepth | src/crawler/crawler/spiders/university_spider.py:56-65 | no request at or past the bound; each request goes one level deeper with the same bound |
| LegacySpider.ParseFollowsEveryLink | src/crawler/crawler/spiders/university_spider.py:61-66 | below the bound there is one request per extracted link, in order, the page itself included |
| LegacySpider.LockLeavesExtractorUnrestricted | src/crawler/crawler/spiders/university_spider.py:27-43 | the lock fills `allowed_domains` while the class extractor keeps its empty domain list |
| SiteSpider.UniversitySpider.constructor | src/crawler/crawler.py:8-36 | `name` is `university_crawler`, `start_urls == [base_url]`, `allowed_domains == [netloc]`, crawl rules are the given ones or the defaults, and the extractor uses them |
| SiteSpider.UniversitySpider.Parse | src/crawler/crawler.py:38-72 | it raises exactly when both filters pass on an unreadable page; the output is `ParseOutput` |
| SiteSpider.ContainsAnyIff | src/crawler/crawler.py:45 | `any(t in s for t in ts)` holds iff some `ts[i]` occurs in `s` |
| SiteSpider.EndsWithAnyIff | src/crawler/crawler.py:55 | `any(s.endswith(e) for e in es)` holds iff `s` ends with some `es[i]` |
| SiteSpider.FiltersIgnoreCase | src/crawler/crawler.py:42-55 | both filters give the same answer on a lower-cased header or URL |
| SiteSpider.FiltersMeaning | src/crawler/crawler.py:42-57 | acceptance means one of the 3 HTML types occurs in the header; rejection means the URL ends with one of the 21 extensions |
| SiteSpider.MissingContentTypeRejected | src/crawler/crawler.py:42-47 | a response without a Content-Type header is skipped |
| SiteSpider.ParseAccepted | src/crawler/crawler.py:59-72 | an accepted response yields the page item, then one request per extracted link in order, without depth metadata |
| SiteSpider.ParseRejected | src/crawler/crawler.py:44-57 | a rejected response yields nothing |
| SiteSpider.DefaultRules | src/crawler/crawler.py:19-27 | the default rules allow everything and deny ten patterns |
| Redis.Deleted | src/crawler/utils/redis_utiils.py:5-8 | `DEL` removes the key and keeps every other entry |
| Redis.Pushed | src/crawler/utils/redis_utiils.py:13 | `LPUSH` puts the value at the head of the key's list, creating it, and keeps every other entry |
| Redis.RedisStore.Delete | src/crawler/utils/redis_utiils.py:5-8 | the new keyspace is `Deleted` of the old |
| Redis.RedisStore.LPush | src/crawler/utils/redis_utiils.py:13 | the new keyspace is `Pushed` of the old |
| Redis.RedisStore.FlushAll | src/crawler/utils/redis_utils.py:6 | the keyspace becomes empty |
| RedisUtiils.ClearRedis | src/crawler/utils/redis_utiils.py:3-8 | the four deletes in order leave `Cleared` of the old keyspace |
| RedisUtiils.AddToRedis | src/crawler/utils/redis_utiils.py:10-13 | the new keyspace is the old one with the URL pushed onto `<spider>:start_urls` |
| RedisUtiils.DeletedAllMeaning | src/crawler/utils/redis_utiils.py:5-8 | deleting a list of keys removes exactly those keys and keeps the values of the rest |
| RedisUtiils.ClearRemovesExactlySpiderKeys | src/crawler/utils/redis_utiils.py:3-8 | clearing removes exactly the spider's four keys |
| RedisUtiils.ClearIdempotent | src/crawler/utils/redis_utiils.py:3-8 | clearing twice equals clearing once |
| RedisUtiils.SeedPrepends | src/crawler/utils/redis_utiils.py:10-13 | the URL becomes the head of the start-URL list; no other key changes |
| RedisUtiils.ClearThenSeed | src/crawler/utils/redis_utiils.py:3-13 | after clear then seed, the start-URL list is exactly `[url]` and the other three spider keys are absent |
| RedisUtils.ClearRedis | src/crawler/utils/redis_utils.py:3-7 | the keyspace becomes empty |
| RedisUtils.AddToRedis | src/crawler/utils/redis_utils.py:9-17 | the loop over `1..count` leaves `SeededUpTo(old, url, name, count)` |
| RedisUtils.SeedKeyInjective | src/crawler/utils/redis_utils.py:14-15 | different crawler ids give different keys |
| RedisUtils.SeededUpToMeaning | src/crawler/utils/redis_utils.py:12-16 | each crawler key `1..n` gets the URL at its head; every other key is unchanged |
| RedisUtils.NonPositiveCountSeedsNothing | src/crawler/utils/redis_utils.py:12 | `count <= 0` changes nothing |
| RedisUtils.FlushThenSeed | src/crawler/utils/redis_utils.py:3-17 | after a flush the keys are exactly the `count` seed keys, each holding `[url]` |
| RedisUtils.SeedKeyIsSpiderKey | src/crawler/utils/redis_utils.py:14-15 | with a non-empty name and a non-zero id, the seed key is the `redis_key` of the Redis-fed spider built with them |
| RedisUtils.EmptyNameSpiderMissesSeed | src/crawler/utils/redis_utils.py:14-15 | with an empty name the spider keeps its class key, which differs from the seeded key |
| GeneralUtils.AddUniversityName | src/crawler/utils/general_utils.py:1-7 | succeeds iff `config["settings"]` is a dict; otherwise `TypeError` or `KeyError('settings')`; sets only `settings.UNIVERSITY_NAME` to the derived name |
| GeneralUtils.UniversityNameShape | src/crawler/utils/general_utils.py:2-5 | the name has no `/` and is no longer than the URL |
| GeneralUtils.UniversityNameOfHttpsUrl | src/crawler/utils/general_utils.py:2-5 | `https://www.<host>.edu/` gives `<host>` for every host without `/` in which `https://`, `.edu` and `www.` (counting the dot of `.edu`) do not occur, e.g. `washington` or `cs.mit` |
| GeneralUtils.UniversityNameKeepsHttpScheme | src/crawler/utils/general_utils.py:2-5 | `http://<host>.edu` gives `http:<host>` for every such host: only `https://` is removed |
| CrawlerCreator.MissingKeys | src/crawler/crawlerCreator.py:32-33 | the result holds exactly the required keys not in the config; a config without `in` raises `TypeError` |
| CrawlerCreator.BuildSettings | src/crawler/crawlerCreator.py:39-63 | a truthy `pagecount` sets `CLOSESPIDER_ITEMCOUNT`; otherwise the settings are the project settings; no other key changes |
| CrawlerCreator.CrawlerCreator.constructor | src/crawler/crawlerCreator.py:10-14 | it stores the kwargs and the config, and settings are `BuildSettings` |
| CrawlerCreator.CrawlerCreator.StartArgs | src/crawler/crawlerCreator.py:65-72 | it passes `config['base_url']` (`KeyError` if absent) and `config.get('crawl_rules')`, `None` if absent |
| CrawlerCreator.Create | src/crawler/crawlerCreator.py:10-14 | loading errors propagate; a non-dict config or settings raises `AttributeError`; otherwise a fresh creator holds the config |
| CrawlerCreator.MissingKeysInOrder | src/crawler/crawlerCreator.py:32-35 | the missing keys are a subsequence of `['base_url', 'settings']` |
| CrawlerCreator.LoadConfigOutcomes | src/crawler/crawlerCreator.py:16-37 | it raises `FileNotFoundError`, then a JSON error, then `KeyError` with the missing keys; success returns the parsed value |
| CrawlerCreator.LoadedHasRequiredKeys | src/crawler/crawlerCreator.py:32-37 | a loaded dict config holds both required keys |
| CrawlerCreator.PagecountRule | src/crawler/crawlerCreator.py:58-59 | `CLOSESPIDER_ITEMCOUNT` is present iff `pagecount` is truthy |
| StartCrawlers.ParseArgvAsWritten | src/crawler/start_crawlers.py:18-25 | the command line as written: usage below four entries, and a four-entry line reaches `argv[4]` |
| StartCrawlers.ParseArgv | src/crawler/start_crawlers.py:18-25 | the corrected guard: usage exactly below five entries; the only error left is `ValueError` from `int()` |
| StartCrawlers.Launches | src/crawler/start_crawlers.py:51-56 | `max(count,0)` launches, the i-th with id `i+1` and the same `allowed_domains` keyword list |
| StartCrawlers.BaseDomain | src/crawler/start_crawlers.py:41-44 | the host with one leading `www.` removed |
| StartCrawlers.PlanCrawlers | src/crawler/start_crawlers.py:51-56 | the loop builds `Launches(count, domains)` |
| StartCrawlers.ResetAndSeed | src/crawler/start_crawlers.py:30-33 | in test mode clear then seed, otherwise seed only |
| StartCrawlers.StartCrawlers | src/crawler/start_crawlers.py:17-58 | with the guard as written, the outcome (usage, the exception, or the process settings and the crawlers) and the new keyspace are `Run` of the command line and the old keyspace |
| StartCrawlers.FourEntriesRaiseIndexError | src/crawler/start_crawlers.py:18-25 | as written, four entries with a numeric count raise `IndexError`, and `main` ends with it before touching Redis |
| StartCrawlers.CorrectedGuard | src/crawler/start_crawlers.py:18-25 | the corrected guard never raises `IndexError` and agrees with the original at every other length |
| StartCrawlers.ShortArgvDoesNothing | src/crawler/start_crawlers.py:18-20 | a command line of fewer than four entries prints usage and leaves Redis unchanged |
| StartCrawlers.SeedAfterReset | src/crawler/start_crawlers.py:30-33 | in test mode the start-URL list is exactly `[url]`; otherwise the URL is prepended; no non-spider key changes |
| StartCrawlers.DashboardNeverResets | src/crawler/dashboard.py:72 | `str(test_mode)` is never `"true"`, so a dashboard launch only seeds |
| StartCrawlers.LaunchPlan | src/crawler/start_crawlers.py:41-56 | the crawlers are ids `1..count` in order, all with `[base_domain]` |
| StartCrawlers.LaunchedSpiders | src/crawler/start_crawlers.py:47-55 | each launched spider reads the key the seed went to; its domains are `[settings.get('ALLOWED_DOMAINS')]` of the process settings, which the lock never replaces |
| StartCrawlers.BaseDomainNeverReachesSpider | src/crawler/start_crawlers.py:41-55 | with no `ALLOWED_DOMAINS` in the settings every spider gets `[None]`, not the `[base_domain]` passed to it |
| StartCrawlers.IntendedSpidersKeepBaseDomain | src/crawler/start_crawlers.py:41-55 | with the keyword honoured, every spider is restricted to `[base_domain]` and the lock keeps it |
| Documents.WithMetadata | src/engine/hybrid_search.py:91 | the written key holds the value; content, id and all other metadata keys are unchanged |
| HybridSearch.StripSpecial | src/engine/hybrid_search.py:43 | only word characters, whitespace, `?` and `!` remain; a string of those is unchanged |
| HybridSearch.StripSpecialKeeps | src/engine/hybrid_search.py:43 | removing characters keeps any property every character had |
| HybridSearch.PreprocessWords | src/engine/hybrid_search.py:41-44 | the words are non-empty tokens of lower-case word characters, `?` and `!` |
| HybridSearch.PreprocessShape | src/engine/hybrid_search.py:41-44 | the output has no leading, trailing or doubled spaces, holds only those characters and spaces, and has no upper case |
| HybridSearch.PreprocessIdempotent | src/engine/hybrid_search.py:41-44 | normalising twice equals normalising once |
| HybridSearch.MergeUnique | src/engine/hybrid_search.py:135-140 | the loop with its seen-set computes `Dedup(vector + bm25)` |
| HybridSearch.DedupContents | src/engine/hybrid_search.py:137-140 | every content of either list appears in the merge, and no other |
| HybridSearch.DedupDistinct | src/engine/hybrid_search.py:135-140 | no two merged documents share content |
| HybridSearch.DedupIsFirstOccurrences | src/engine/hybrid_search.py:135-140 | the merge is exactly the first occurrence of each content, in input order |
| HybridSearch.DedupVectorFirst | src/engine/hybrid_search.py:137 | the merge of the vector list is a prefix of the whole merge; the rest comes from BM25 |
| HybridSearch.OverlapBounds | src/engine/hybrid_search.py:90 | the overlap lies in [0,1], is 0 for no query terms, and is 1 iff all query terms occur in the document |
| HybridSearch.ContextScoreBounds | src/engine/hybrid_search.py:86-91 | each context score lies in [0,1] and is 0 for an empty normalised query |
| HybridSearch.ContextualSimilarity | src/engine/hybrid_search.py:86-92 | each document, in order, gains `context_score` equal to its overlap with the query |
| HybridSearch.InsertPerm | src/engine/hybrid_search.py:111 | insertion adds exactly one element |
| HybridSearch.InsertSorted | src/engine/hybrid_search.py:111 | insertion keeps the order by non-increasing score |
| HybridSearch.SortByScoreSorted | src/engine/hybrid_search.py:111 | the sort orders by non-increasing `final_score` |
| HybridSearch.SortByScorePerm | src/engine/hybrid_search.py:111 | the sort is a permutation of its input |
| HybridSearch.PyPrefix | src/engine/hybrid_search.py:111 | `s[:k]` is a prefix of length `min(k,n)`, or `max(n+k,0)` for negative `k` |
| HybridSearch.Scored | src/engine/hybrid_search.py:106-110 | each document gains `final_score` equal to its weighted score |
| HybridSearch.AdvancedFusion | src/engine/hybrid_search.py:105-111 | the loop and the cut give the `top_k` prefix of the scored documents sorted by score |
| HybridSearch.FusionResult | src/engine/hybrid_search.py:105-111 | `min(top_k, n)` documents in non-increasing order, a sub-multiset of the input, each an input with its final score |
| HybridSearch.ContextScoreOfNormalisedQuery | src/engine/hybrid_search.py:113-143 | scoring against the normalised query gives the raw query's score |
| HybridSearch.Search | src/engine/hybrid_search.py:113-145 | the result is ordered by non-increasing final score, has at most `top_k` documents, and each carries a float `final_score` |
| Embedding.MakeDocument | src/crawler/pipelines/embedding.py:26-30 | the first missing key among title, url and text raises `KeyError`; the metadata is exactly url, title and source; there is no id |
| Embedding.Zip | src/crawler/pipelines/embedding.py:37 | pairs up to the shorter list, in order |
| Embedding.ProcessPage | src/crawler/pipelines/embedding.py:39-50 | the loop returns `PageRecords` of the item |
| Embedding.ProcessItem | src/crawler/pipelines/embedding.py:52-55 | the result is `EmbeddedItem` of the item |
| Embedding.MakeDocumentOfStrings | src/crawler/pipelines/embedding.py:27-28 | for string fields the content is exactly `Title: t\n\nURL: u\n\nContent: x` |
| Embedding.RecordsMeaning | src/crawler/pipelines/embedding.py:43-48 | one record per pair, in order, holding the chunk text and its vector |
| Embedding.PageRecordsMeaning | src/crawler/pipelines/embedding.py:33-50 | record i is `{text: chunk_i, embedding: vector_i}` for i below `min(chunks, vectors)` |
| Embedding.EmbeddedItemChangesOnlyEmbeddings | src/crawler/pipelines/embedding.py:52-55 | it fails iff url, title or text is missing, url first; otherwise only `embeddings` changes |
| VectorStore.Iterate | src/crawler/pipelines/vector_store.py:36 | a list iterates its items; scalars are not iterable |
| VectorStore.ChunkDocuments | src/crawler/pipelines/vector_store.py:29-37 | succeeds iff every chunk has a string `text`; document i has that text, the shared metadata and id `ids(start+i)` |
| VectorStore.VectorStorePipeline.constructor | src/crawler/pipelines/vector_store.py:15 | the collection starts with the documents it already holds |
| VectorStore.VectorStorePipeline.ProcessItem | src/crawler/pipelines/vector_store.py:27-40 | on success the collection gains exactly the built documents in one add and the item is returned; on error nothing is added |
| VectorStore.BuildDocumentsMeaning | src/crawler/pipelines/vector_store.py:29-37 | one document per embedding record, in order, with its text, `url`, `title` (or `""`), source and its own id |
| VectorStore.BuildDocumentsErrors | src/crawler/pipelines/vector_store.py:28-36 | a missing `url` raises first, then a missing `embeddings` |
| VectorStore.StoreAfterEmbedding | src/crawler/pipelines/vector_store.py:29-37 | storing an embedded item succeeds with one document per chunk, holding that chunk's text and the page's url and title |

## Left out

- RedisSpider.UniversitySpider.constructor: it requires truthy settings. With falsy settings, line 59 of `src/crawler/spiders/university_spider.py` reads `self.settings`, which is not yet assigned, and raises `AttributeError`, with or without an `allowed_domains` keyword. A constructor cannot return that error; `RedisSpider.InitialDomains` states it. This rests on Scrapy's `Spider` assigning `settings` only when a crawler is attached.
- RedisSpider.CrawlerSettings: Scrapy's default settings are not modelled. They are never empty and set no `ALLOWED_DOMAINS`, so neither truthiness nor the domains depend on them.
- The `crawler` attachment and `setup_redis` of `from_crawler` are not modelled.
- HybridSearch.Search: it states order, length and scores only. Re-ranking, normalisation and retrieval are parameters, so the contents of the result are not tied to the query.
- `_normalize_scores` and the weighted sum of `_advanced_fusion`: these are float arithmetic with an epsilon. The final score is a given `Document -> real` function, and normalisation is a parameter of `Search`.
- `_retrieve_vector`, `_retrieve_bm25`, `_rerank` and `_load_all_docs` call Chroma, BM25 and a cross-encoder. They are foreign calls, passed as parameters.
- The sort's stability is not stated. Only order and permutation are proved.
- Text is modelled on ASCII. `lower()` and `\w` are taken on ASCII letters, digits and `_`. Whitespace is Python's `isspace` set.
- Header decoding is not modelled. `decode('utf-8', errors='ignore')` is taken as the header text itself.
- `urlparse`, `canonicalize_url`, `LinkExtractor.extract_links`, the text splitter, the embedder, `json.load`, `int()` and `uuid4()` stay uninterpreted. They are parameters, as is `str()` of values other than `None`, booleans, integers and strings.
- Dicts are values. The in-place writes to `config`, `item` and `doc.metadata` return the updated value, so aliasing between callers is not modelled.
- Redis is one server with list values, reached through `redis.from_url`. Its networking, and values of other types, are not modelled.
- The dupefilter, request queues and idle handling of scrapy-redis are not modelled. They run inside the library, concurrently across crawlers.
- The following are left out as output and process control: `print` and logging; `CrawlerProcess`, `process.crawl` and `process.start()`; `settings.setdict()`; the `lrange` print at line 35 of `start_crawlers.py`.
- `_build_scrapy_settings` reads `DUPEFILTER_CLASS` and `use_bfs` but never uses them. The model only checks that those `.get` calls do not raise.
- `crawlerCreator.py` imports `university_crawler`, which is not part of this model. It is taken to be the spider of `src/crawler/crawler.py`, whose `__init__` takes `base_url` and `crawl_rules`.
- Chroma's collection is modelled as the list of documents it has received, not as an index.

## Findings

| source | as written | input that shows it | evidently intended | confidence | as-written member | corrected member |
|---|---|---|---|---|---|---|
| src/crawler/start_crawlers.py:18-25 | the usage guard is `len(sys.argv) < 4` but line 25 reads `sys.argv[4]` | `argv = ["start_crawlers.py", "https://x.edu", "2", "config.json"]` passes the guard and raises `IndexError` | guard `len(sys.argv) < 5`, matching the four arguments the usage line lists | high (not executed) | StartCrawlers.FourEntriesRaiseIndexError | StartCrawlers.CorrectedGuard |
| src/crawler/start_crawlers.py:41-55 | `main` passes `allowed_domains=[base_domain]`, but `from_crawler` always passes the crawler's non-empty settings, so lines 48-51 of `src/crawler/spiders/university_spider.py` replace the keyword with `[settings.get('ALLOWED_DOMAINS')]` | a configuration whose `settings` hold no `ALLOWED_DOMAINS` gives every spider `allowed_domains == [None]` | each spider restricted to the launcher's base domain, as the keyword and the comment at line 81 of the spider expect | medium (not executed) | StartCrawlers.BaseDomainNeverReachesSpider | StartCrawlers.IntendedSpidersKeepBaseDomain |

The model of `main` follows the code as written. `StartCrawlers.ParseArgvAsWritten` is the guard `Run` and `StartCrawlers.StartCrawlers` use. `StartCrawlers.ParseArgv` is the corrected guard, stated beside it.
The spider's construction also follows the code as written. `RedisSpider.IntendedDomains` is the corrected choice, stated beside it.
