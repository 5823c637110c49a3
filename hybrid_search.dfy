/** The pure helpers of `HybridSearchEngine` in `src/engine/hybrid_search.py`:
    query normalisation, the first-occurrence merge of the vector and BM25
    result lists in `search`, the term-overlap context score, and the
    sort-and-cut of `_advanced_fusion`.  Documents are values here: where the
    source writes a score into `doc.metadata`, the model returns the updated
    documents. */
module HybridSearch {
  import opened Base
  import opened Strings
  import opened Py
  import opened Documents

  // -----------------------------------------------------------------------
  // _preprocess_query
  // -----------------------------------------------------------------------

  /** `\w` on ASCII: letters, digits and the underscore. */
  predicate IsWordChar(c: char) {
    ('a' <= c <= 'z') || ('A' <= c <= 'Z') || ('0' <= c <= '9') || c == '_'
  }

  /** The characters `re.sub(r'[^\w\s?!]', '', query)` keeps. */
  predicate Kept(c: char) {
    IsWordChar(c) || IsSpace(c) || c == '?' || c == '!'
  }

  /** `re.sub(r'[^\w\s?!]', '', s)`: every other character is dropped. */
  function StripSpecial(s: string): (r: string)
    ensures |r| <= |s|
    ensures forall i :: 0 <= i < |r| ==> Kept(r[i])
    ensures (forall i :: 0 <= i < |s| ==> Kept(s[i])) ==> r == s
    decreases |s|
  {
    if s == [] then []
    else
      assert forall i :: 0 <= i < |s[1..]| ==> s[1..][i] == s[i + 1];
      (if Kept(s[0]) then [s[0]] else []) + StripSpecial(s[1..])
  }

  /** The words of the stripped, lower-cased query once special characters
      are gone. */
  function QueryWords(query: string): seq<string> {
    Words(StripSpecial(Lower(Strip(query))))
  }

  /** `_preprocess_query(query)`. */
  function PreprocessQuery(query: string): string {
    Join(QueryWords(query), " ")
  }

  /** A character a normalised query holds between its spaces. */
  predicate QueryChar(c: char) {
    !IsUpper(c) && (IsWordChar(c) || c == '?' || c == '!')
  }

  /** Dropping characters never introduces one. */
  lemma {:induction false} StripSpecialKeeps(s: string, P: char -> bool)
    requires forall i :: 0 <= i < |s| ==> P(s[i])
    ensures forall i :: 0 <= i < |StripSpecial(s)| ==> P(StripSpecial(s)[i])
    decreases |s|
  {
    if s != [] {
      StripSpecialKeeps(s[1..], P);
      var head := if Kept(s[0]) then [s[0]] else [];
      var rest := StripSpecial(s[1..]);
      assert StripSpecial(s) == head + rest;
      forall i | 0 <= i < |head + rest| ensures P((head + rest)[i]) {
        if i >= |head| {
          assert (head + rest)[i] == rest[i - |head|];
        }
      }
    }
  }

  /** The words of a normalised query are tokens of lower-case word
      characters, `?` and `!`. */
  lemma PreprocessWords(query: string)
    ensures forall j :: 0 <= j < |QueryWords(query)| ==> IsToken(QueryWords(query)[j])
    ensures forall j, i :: 0 <= j < |QueryWords(query)| && 0 <= i < |QueryWords(query)[j]| ==>
      QueryChar(QueryWords(query)[j][i])
  {
    var lowered := Lower(Strip(query));
    var s := StripSpecial(lowered);
    var P := (c: char) => !IsUpper(c) && Kept(c);
    StripSpecialKeeps(lowered, (c: char) => !IsUpper(c));
    assert forall i :: 0 <= i < |s| ==> P(s[i]);
    WordsKeep(s, P);
    WordsAreTokens(s);
  }

  /** A character of a normalised query. */
  predicate QueryOrSpace(c: char) {
    QueryChar(c) || c == ' '
  }

  /** A normalised query has no leading, trailing or repeated whitespace, and
      holds only lower-case word characters, `?`, `!` and single spaces. */
  lemma PreprocessShape(query: string)
    ensures SingleSpaced(PreprocessQuery(query))
    ensures forall i :: 0 <= i < |PreprocessQuery(query)| ==> QueryOrSpace(PreprocessQuery(query)[i])
    ensures forall i :: 0 <= i < |PreprocessQuery(query)| ==> !IsUpper(PreprocessQuery(query)[i])
  {
    var ws := QueryWords(query);
    var p := Join(ws, " ");
    assert PreprocessQuery(query) == p;
    PreprocessWords(query);
    JoinSingleSpaced(ws);
    assert forall j, i :: 0 <= j < |ws| && 0 <= i < |ws[j]| ==> QueryOrSpace(ws[j][i]);
    assert forall i :: 0 <= i < |" "| ==> QueryOrSpace(" "[i]);
    JoinKeeps(ws, " ", QueryOrSpace);
    assert forall i :: 0 <= i < |p| ==> QueryOrSpace(p[i]);
  }

  /** Normalising twice is normalising once. */
  lemma PreprocessIdempotent(query: string)
    ensures PreprocessQuery(PreprocessQuery(query)) == PreprocessQuery(query)
  {
    var ws := QueryWords(query);
    var p := PreprocessQuery(query);
    PreprocessWords(query);
    PreprocessShape(query);
    assert Strip(p) == p by {
      if p != [] {
        assert !IsSpace(p[0]);
        assert !IsSpace(p[|p| - 1]);
        assert DropSpaces(p) == p;
      }
    }
    assert Lower(p) == p;
    assert StripSpecial(p) == p;
    WordsOfJoin(ws);
  }

  // -----------------------------------------------------------------------
  // The merge in search
  // -----------------------------------------------------------------------

  /** The page contents of a list of documents. */
  function Contents(ds: seq<Document>): set<string> {
    set i | 0 <= i < |ds| :: ds[i].pageContent
  }

  /** The documents the loop of lines 137-140 keeps from `ds`: each one whose
      content has not been kept before. */
  function Dedup(ds: seq<Document>): seq<Document>
    decreases |ds|
  {
    if ds == [] then []
    else
      var prev := Dedup(ds[..|ds| - 1]);
      var d := ds[|ds| - 1];
      if d.pageContent in Contents(prev) then prev else prev + [d]
  }

  /** Whether `ds[i]` is the first document with its content. */
  predicate IsFirst(ds: seq<Document>, i: int)
    requires 0 <= i < |ds|
  {
    forall j :: 0 <= j < i ==> ds[j].pageContent != ds[i].pageContent
  }

  /** Reference definition: the first occurrence of each content, in input
      order. */
  function FirstOccurrences(ds: seq<Document>): seq<Document>
    decreases |ds|
  {
    if ds == [] then []
    else FirstOccurrences(ds[..|ds| - 1]) + (if IsFirst(ds, |ds| - 1) then [ds[|ds| - 1]] else [])
  }

  /** The merge of lines 135-140. */
  method MergeUnique(vectorDocs: seq<Document>, bm25Docs: seq<Document>) returns (combined: seq<Document>)
    ensures combined == Dedup(vectorDocs + bm25Docs)
  {
    var all := vectorDocs + bm25Docs;
    var seenContents: set<string> := {};
    combined := [];
    var i := 0;
    while i < |all|
      invariant 0 <= i <= |all|
      invariant combined == Dedup(all[..i])
      invariant seenContents == Contents(combined)
    {
      var doc := all[i];
      assert all[..i + 1][..i] == all[..i];
      if doc.pageContent !in seenContents {
        ContentsSnoc(combined, doc);
        seenContents := seenContents + {doc.pageContent};
        combined := combined + [doc];
      }
      i := i + 1;
    }
    assert all[..i] == all;
  }

  lemma ContentsSnoc(ds: seq<Document>, d: Document)
    ensures Contents(ds + [d]) == Contents(ds) + {d.pageContent}
  {
    var s := ds + [d];
    assert s[|ds|] == d;
    forall c | c in Contents(ds) ensures c in Contents(s) {
      var i :| 0 <= i < |ds| && ds[i].pageContent == c;
      assert s[i] == ds[i];
    }
  }

  /** Every content of the input is kept, and nothing else. */
  lemma {:induction false} DedupContents(ds: seq<Document>)
    ensures Contents(Dedup(ds)) == Contents(ds)
    decreases |ds|
  {
    if ds != [] {
      var init := ds[..|ds| - 1];
      var d := ds[|ds| - 1];
      DedupContents(init);
      assert ds == init + [d];
      ContentsSnoc(init, d);
      if d.pageContent !in Contents(Dedup(init)) {
        ContentsSnoc(Dedup(init), d);
      }
    }
  }

  /** No two kept documents share their content. */
  lemma {:induction false} DedupDistinct(ds: seq<Document>)
    ensures forall a, b :: 0 <= a < b < |Dedup(ds)| ==> Dedup(ds)[a].pageContent != Dedup(ds)[b].pageContent
    decreases |ds|
  {
    if ds != [] {
      var init := ds[..|ds| - 1];
      var d := ds[|ds| - 1];
      DedupDistinct(init);
      var prev := Dedup(init);
      if d.pageContent !in Contents(prev) {
        var r := prev + [d];
        forall a, b | 0 <= a < b < |r| ensures r[a].pageContent != r[b].pageContent {
          if b == |prev| {
            assert r[a] == prev[a];
            assert prev[a].pageContent in Contents(prev);
          }
        }
      }
    }
  }

  /** The merge keeps exactly the first occurrence of each content, in input
      order. */
  lemma {:induction false} DedupIsFirstOccurrences(ds: seq<Document>)
    ensures Dedup(ds) == FirstOccurrences(ds)
    decreases |ds|
  {
    if ds != [] {
      var n := |ds|;
      var init := ds[..n - 1];
      var d := ds[n - 1];
      DedupIsFirstOccurrences(init);
      DedupContents(init);
      assert Contents(Dedup(init)) == Contents(init);
      if IsFirst(ds, n - 1) {
        forall c | c in Contents(init) ensures c != d.pageContent {
          var j :| 0 <= j < |init| && init[j].pageContent == c;
          assert ds[j] == init[j];
        }
        assert Dedup(ds) == Dedup(init) + [d];
        assert FirstOccurrences(ds) == FirstOccurrences(init) + [d];
      } else {
        var j :| 0 <= j < n - 1 && ds[j].pageContent == d.pageContent;
        assert init[j] == ds[j];
        assert d.pageContent in Contents(init);
        assert Dedup(ds) == Dedup(init);
        assert FirstOccurrences(ds) == FirstOccurrences(init) + [];
      }
    }
  }

  /** Vector results come first: the merge of the vector list alone is a
      prefix of the full merge, and the rest comes from the BM25 list. */
  lemma {:induction false} DedupVectorFirst(vectorDocs: seq<Document>, bm25Docs: seq<Document>)
    ensures var whole := Dedup(vectorDocs + bm25Docs);
      |Dedup(vectorDocs)| <= |whole| && whole[..|Dedup(vectorDocs)|] == Dedup(vectorDocs) &&
      forall k :: |Dedup(vectorDocs)| <= k < |whole| ==> whole[k] in bm25Docs
    decreases |bm25Docs|
  {
    if bm25Docs == [] {
      assert vectorDocs + bm25Docs == vectorDocs;
    } else {
      var init := bm25Docs[..|bm25Docs| - 1];
      var all := vectorDocs + bm25Docs;
      assert all[..|all| - 1] == vectorDocs + init;
      assert all[|all| - 1] == bm25Docs[|bm25Docs| - 1];
      DedupVectorFirst(vectorDocs, init);
      forall k | |Dedup(vectorDocs)| <= k < |Dedup(vectorDocs + init)|
        ensures Dedup(vectorDocs + init)[k] in bm25Docs
      {
        var x := Dedup(vectorDocs + init)[k];
        assert x in init;
        var j :| 0 <= j < |init| && init[j] == x;
        assert bm25Docs[j] == x;
      }
    }
  }

  // -----------------------------------------------------------------------
  // _contextual_similarity
  // -----------------------------------------------------------------------

  /** `set(ws)`. */
  function SetOf(ws: seq<string>): set<string> {
    set w | w in ws
  }

  /** `len(query_terms & doc_terms) / max(len(query_terms), 1)`, in exact
      arithmetic. */
  function Overlap(queryTerms: set<string>, docTerms: set<string>): real {
    (|queryTerms * docTerms| as real) / ((if |queryTerms| >= 1 then |queryTerms| else 1) as real)
  }

  /** The `context_score` of a document with content `content`. */
  function ContextScore(query: string, content: string): real {
    Overlap(SetOf(Words(PreprocessQuery(query))), SetOf(Words(Lower(content))))
  }

  lemma SubsetCardinality(a: set<string>, b: set<string>)
    requires a <= b
    ensures |a| <= |b|
    ensures |a| == |b| ==> a == b
  {
    assert b == a + (b - a);
    assert a * (b - a) == {};
    assert |b| == |a| + |b - a|;
    if |a| == |b| {
      assert |b - a| == 0;
      assert b - a == {};
    }
  }

  /** For a positive divisor `q`: `x / q` is 1 exactly when `x == q`, and it
      lies in [0, 1] when `x` lies in [0, q]. */
  lemma RatioBounds(x: real, q: real)
    requires q > 0.0
    ensures x / q == 1.0 <==> x == q
    ensures 0.0 <= x <= q ==> 0.0 <= x / q <= 1.0
  {
    var r := x / q;
    assert r * q == x;
    if x == q {
      assert (r - 1.0) * q == 0.0;
    }
  }

  /** The score lies in [0, 1]; it is 0 for a query with no terms, and 1
      exactly when the query has terms and all of them occur in the document. */
  lemma OverlapBounds(queryTerms: set<string>, docTerms: set<string>)
    ensures 0.0 <= Overlap(queryTerms, docTerms) <= 1.0
    ensures queryTerms == {} ==> Overlap(queryTerms, docTerms) == 0.0
    ensures Overlap(queryTerms, docTerms) == 1.0 <==> queryTerms != {} && queryTerms <= docTerms
  {
    var common := queryTerms * docTerms;
    SubsetCardinality(common, queryTerms);
    if queryTerms == {} {
      assert common == {};
    } else {
      var q := |queryTerms| as real;
      assert Overlap(queryTerms, docTerms) == (|common| as real) / q;
      RatioBounds(|common| as real, q);
      if queryTerms <= docTerms {
        assert common == queryTerms;
      }
      if Overlap(queryTerms, docTerms) == 1.0 {
        assert |common| as real == q;
        assert |common| == |queryTerms|;
        assert common == queryTerms;
        assert queryTerms <= docTerms;
      }
    }
  }

  /** The context score of any document lies in [0, 1], and is 0 when the
      normalised query is empty. */
  lemma ContextScoreBounds(query: string, content: string)
    ensures 0.0 <= ContextScore(query, content) <= 1.0
    ensures PreprocessQuery(query) == "" ==> ContextScore(query, content) == 0.0
  {
    OverlapBounds(SetOf(Words(PreprocessQuery(query))), SetOf(Words(Lower(content))));
    if PreprocessQuery(query) == "" {
      assert Words("") == [];
      assert SetOf([]) == {};
    }
  }

  /** A document with its context score against `query` written. */
  function WithContextScore(query: string, d: Document): Document {
    WithMetadata(d, "context_score", Float(ContextScore(query, d.pageContent)))
  }

  /** `_contextual_similarity(query, docs)`. */
  method ContextualSimilarity(query: string, docs: seq<Document>) returns (out: seq<Document>)
    ensures |out| == |docs|
    ensures forall i :: 0 <= i < |docs| ==>
      out[i] == WithMetadata(docs[i], "context_score", Float(ContextScore(query, docs[i].pageContent)))
  {
    var queryTerms := SetOf(Words(PreprocessQuery(query)));
    out := [];
    var i := 0;
    while i < |docs|
      invariant 0 <= i <= |docs|
      invariant |out| == i
      invariant forall k :: 0 <= k < i ==> out[k] == WithContextScore(query, docs[k])
    {
      var docTerms := SetOf(Words(Lower(docs[i].pageContent)));
      var overlap := Overlap(queryTerms, docTerms);
      out := out + [WithMetadata(docs[i], "context_score", Float(overlap))];
      i := i + 1;
    }
    forall k | 0 <= k < |docs|
      ensures out[k] == WithMetadata(docs[k], "context_score", Float(ContextScore(query, docs[k].pageContent)))
    {
      assert out[k] == WithContextScore(query, docs[k]);
    }
  }

  // -----------------------------------------------------------------------
  // _advanced_fusion
  // -----------------------------------------------------------------------

  /** `doc.metadata["final_score"]`, read as a number. */
  function FinalScore(d: Document): real {
    match Get(d.metadata, "final_score", Null)
    case Float(r) => r
    case _ => 0.0
  }

  predicate SortedByScore(ds: seq<Document>) {
    forall i, j :: 0 <= i < j < |ds| ==> FinalScore(ds[i]) >= FinalScore(ds[j])
  }

  /** `x` placed before the first document that does not outscore it. */
  function Insert(x: Document, ds: seq<Document>): seq<Document> {
    if ds == [] || FinalScore(x) >= FinalScore(ds[0]) then [x] + ds
    else [ds[0]] + Insert(x, ds[1..])
  }

  /** `sorted(docs, key=final_score, reverse=True)`. */
  function SortByScore(ds: seq<Document>): seq<Document> {
    if ds == [] then [] else Insert(ds[0], SortByScore(ds[1..]))
  }

  lemma {:induction false} InsertPerm(x: Document, ds: seq<Document>)
    ensures multiset(Insert(x, ds)) == multiset(ds) + multiset{x}
    ensures |Insert(x, ds)| == |ds| + 1
  {
    if ds != [] && FinalScore(x) < FinalScore(ds[0]) {
      InsertPerm(x, ds[1..]);
      assert ds == [ds[0]] + ds[1..];
    }
  }

  /** A sorted list with a head that outscores its whole tail. */
  lemma SortedCons(h: Document, t: seq<Document>)
    requires SortedByScore(t)
    requires forall k :: 0 <= k < |t| ==> FinalScore(h) >= FinalScore(t[k])
    ensures SortedByScore([h] + t)
  {
    var r := [h] + t;
    forall i, j | 0 <= i < j < |r| ensures FinalScore(r[i]) >= FinalScore(r[j]) {
      assert r[j] == t[j - 1];
      if i > 0 {
        assert r[i] == t[i - 1];
      }
    }
  }

  lemma {:induction false} InsertSorted(x: Document, ds: seq<Document>)
    requires SortedByScore(ds)
    ensures SortedByScore(Insert(x, ds))
  {
    if ds == [] || FinalScore(x) >= FinalScore(ds[0]) {
      forall k | 0 <= k < |ds| ensures FinalScore(x) >= FinalScore(ds[k]) {
        assert FinalScore(ds[0]) >= FinalScore(ds[k]) || k == 0;
      }
      SortedCons(x, ds);
    } else {
      var tail := ds[1..];
      assert SortedByScore(tail) by {
        forall i, j | 0 <= i < j < |tail| ensures FinalScore(tail[i]) >= FinalScore(tail[j]) {
          assert tail[i] == ds[i + 1] && tail[j] == ds[j + 1];
        }
      }
      var rest := Insert(x, tail);
      InsertSorted(x, tail);
      InsertPerm(x, tail);
      forall k | 0 <= k < |rest| ensures FinalScore(ds[0]) >= FinalScore(rest[k]) {
        var y := rest[k];
        assert y in multiset(rest);
        if y != x {
          assert y in multiset(tail);
          var m :| 0 <= m < |tail| && tail[m] == y;
          assert ds[m + 1] == y;
        }
      }
      SortedCons(ds[0], rest);
    }
  }

  /** Sorting orders by non-increasing score. */
  lemma {:induction false} SortByScoreSorted(ds: seq<Document>)
    ensures SortedByScore(SortByScore(ds))
  {
    if ds != [] {
      var sortedTail := SortByScore(ds[1..]);
      SortByScoreSorted(ds[1..]);
      InsertSorted(ds[0], sortedTail);
    }
  }

  /** Sorting only reorders. */
  lemma {:induction false} SortByScorePerm(ds: seq<Document>)
    ensures multiset(SortByScore(ds)) == multiset(ds)
    ensures |SortByScore(ds)| == |ds|
  {
    if ds != [] {
      var sortedTail := SortByScore(ds[1..]);
      SortByScorePerm(ds[1..]);
      InsertPerm(ds[0], sortedTail);
      assert multiset(ds) == multiset(ds[1..]) + multiset{ds[0]} by {
        assert ds == [ds[0]] + ds[1..];
      }
    }
  }

  /** Python's `s[:k]`: a negative `k` counts from the end. */
  function PyPrefix(ds: seq<Document>, k: int): (r: seq<Document>)
    ensures |r| == if k >= 0 then (if k <= |ds| then k else |ds|) else (if |ds| + k >= 0 then |ds| + k else 0)
    ensures r == ds[..|r|]
  {
    if k >= 0 then (if k <= |ds| then ds[..k] else ds)
    else if |ds| + k >= 0 then ds[..|ds| + k] else []
  }

  /** The documents after the loop of lines 106-110, with the weighted sum
      given as `score`. */
  function Scored(docs: seq<Document>, score: Document -> real): (r: seq<Document>)
    ensures |r| == |docs|
    ensures forall i :: 0 <= i < |docs| ==> r[i] == WithMetadata(docs[i], "final_score", Float(score(docs[i])))
  {
    seq(|docs|, i requires 0 <= i < |docs| => WithMetadata(docs[i], "final_score", Float(score(docs[i]))))
  }

  /** `_advanced_fusion(docs)` with `self.top_k` as `topK` and the weighted
      score sum as `score`. */
  method AdvancedFusion(docs: seq<Document>, topK: int, score: Document -> real) returns (out: seq<Document>)
    ensures out == PyPrefix(SortByScore(Scored(docs, score)), topK)
  {
    var scored := [];
    var i := 0;
    while i < |docs|
      invariant 0 <= i <= |docs|
      invariant scored == Scored(docs[..i], score)
    {
      scored := scored + [WithMetadata(docs[i], "final_score", Float(score(docs[i])))];
      i := i + 1;
    }
    assert docs[..i] == docs;
    var sorted := SortByScore(scored);
    out := PyPrefix(sorted, topK);
  }

  /** Fusion returns `min(top_k, n)` of the scored documents (for a
      non-negative `top_k`), ordered by non-increasing final score, each the
      input document with its final score written. */
  lemma FusionResult(docs: seq<Document>, topK: int, score: Document -> real)
    ensures var out := PyPrefix(SortByScore(Scored(docs, score)), topK);
      && (topK >= 0 ==> |out| == if topK <= |docs| then topK else |docs|)
      && SortedByScore(out)
      && multiset(out) <= multiset(Scored(docs, score))
      && forall d :: d in out ==> exists i :: 0 <= i < |docs| && d == WithMetadata(docs[i], "final_score", Float(score(docs[i])))
  {
    var scored := Scored(docs, score);
    var sorted := SortByScore(scored);
    SortByScoreSorted(scored);
    SortByScorePerm(scored);
    var out := PyPrefix(sorted, topK);
    PrefixKeeps(sorted, out);
    forall d | d in out
      ensures exists i :: 0 <= i < |docs| && d == WithMetadata(docs[i], "final_score", Float(score(docs[i])))
    {
      assert d in multiset(scored);
      var i :| 0 <= i < |scored| && scored[i] == d;
    }
  }

  /** A prefix of a sorted list is sorted and holds a sub-multiset of it. */
  lemma PrefixKeeps(ds: seq<Document>, p: seq<Document>)
    requires |p| <= |ds| && p == ds[..|p|]
    ensures SortedByScore(ds) ==> SortedByScore(p)
    ensures multiset(p) <= multiset(ds)
  {
    assert ds == p + ds[|p|..];
    assert multiset(ds) == multiset(p) + multiset(ds[|p|..]);
  }

  // -----------------------------------------------------------------------
  // search
  // -----------------------------------------------------------------------

  /** Scoring against the already normalised query, as `search` does, gives
      the same context score as scoring against the raw query. */
  lemma ContextScoreOfNormalisedQuery(query: string, content: string)
    ensures ContextScore(PreprocessQuery(query), content) == ContextScore(query, content)
  {
    PreprocessIdempotent(query);
  }

  /** `search(query)`: the retrievers, the cross-encoder re-ranking and the
      score normalisation are parameters; the query is normalised once and
      all later steps see the normalised query. */
  method Search(query: string, retrieveVector: string -> seq<Document>, retrieveBm25: string -> seq<Document>,
                rerank: (string, seq<Document>) -> seq<Document>, normalize: seq<Document> -> seq<Document>,
                topK: int, score: Document -> real)
    returns (out: seq<Document>)
    ensures SortedByScore(out)
    ensures topK >= 0 ==> |out| <= topK
    ensures forall d :: d in out ==> "final_score" in d.metadata && d.metadata["final_score"].Float?
  {
    var normalised := PreprocessQuery(query);
    var vectorDocs := retrieveVector(normalised);
    var bm25Docs := retrieveBm25(normalised);
    var combined := MergeUnique(vectorDocs, bm25Docs);
    var reranked := rerank(normalised, combined);
    var contextual := ContextualSimilarity(normalised, reranked);
    var normalizedDocs := normalize(contextual);
    out := AdvancedFusion(normalizedDocs, topK, score);
    FusionResult(normalizedDocs, topK, score);
  }
}
