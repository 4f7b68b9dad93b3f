/**
 * The retrieval document store of internal/storage/metadata/retrieval/store.go:
 * normalisation, the memory and the file back ends, and the scored search.
 * A file is the sequence of documents appended to it.
 */
module Retrieval {
  import opened Wrappers
  import opened Sorting
  import opened Text
  import opened Times
  import opened Terms

  const ENTITY_SESSION := "network_session"
  const ENTITY_ACCESS := "network_access"

  datatype Document = Document(
    documentId: string,
    schemaVersion: string,
    tenantId: string,
    source: string,
    sourceEventId: string,
    sourceKey: string,
    entityType: string,
    eventType: string,
    occurredAt: Time,
    ingestedAt: Time,
    title: string,
    content: string,
    subscriberId: string,
    sessionId: string,
    requestId: string,
    status: string,
    outcome: string,
    nasIp: string,
    clientIp: string,
    policyName: string,
    rejectReason: string,
    tags: seq<string>,
    terms: seq<string>,
    attributes: map<string, string>)

  datatype Query = Query(
    tenantId: string,
    queryText: string,
    subscriberId: string,
    sessionId: string,
    requestId: string,
    status: string,
    outcome: string,
    nasIp: string,
    clientIp: string,
    from: Option<Time>,
    to: Option<Time>,
    limit: int)

  datatype Hit = Hit(score: real, matchedTerms: seq<string>, document: Document)

  predicate ValidDocument(d: Document) {
    && !Blank(d.documentId) && !Blank(d.schemaVersion) && !Blank(d.tenantId)
    && !Blank(d.source) && !Blank(d.sourceEventId) && !Blank(d.sourceKey)
    && !Blank(d.entityType) && !Blank(d.eventType)
    && d.occurredAt != ZERO_TIME && d.ingestedAt != ZERO_TIME
    && !Blank(d.title) && !Blank(d.content) && !Blank(d.subscriberId)
    && d.terms != []
    && (if TrimSpace(d.entityType) == ENTITY_SESSION then !Blank(d.sessionId) && !Blank(d.status)
        else TrimSpace(d.entityType) == ENTITY_ACCESS && !Blank(d.requestId) && !Blank(d.outcome))
  }

  // ---------------------------------------------------------------- normalisation

  /** Everything normalizeDocument does except to the attribute map. */
  function NormalizeFields(d: Document): Document {
    Document(
      TrimSpace(d.documentId), TrimSpace(d.schemaVersion), TrimSpace(d.tenantId), TrimSpace(d.source),
      TrimSpace(d.sourceEventId), TrimSpace(d.sourceKey), TrimSpace(d.entityType), TrimSpace(d.eventType),
      d.occurredAt, d.ingestedAt, TrimSpace(d.title), TrimSpace(d.content), TrimSpace(d.subscriberId),
      TrimSpace(d.sessionId), TrimSpace(d.requestId), TrimSpace(d.status), TrimSpace(d.outcome),
      TrimSpace(d.nasIp), TrimSpace(d.clientIp), TrimSpace(d.policyName), TrimSpace(d.rejectReason),
      Sort(TermLe, d.tags), NormalizeTerms(d.terms), d.attributes)
  }

  /**
   * What trimming the keys and values of a map may give. Keys that differ only
   * in outer spaces collide, and the order of the range decides which wins.
   */
  ghost predicate CleansTo(clean: string -> string, before: map<string, string>, after: map<string, string>) {
    && (forall k | k in before && clean(k) != "" :: clean(k) in after)
    && (forall k | k in after :: k != "" &&
          exists raw :: raw in before && clean(raw) == k && after[k] == clean(before[raw]))
  }

  ghost predicate TrimsTo(before: map<string, string>, after: map<string, string>) {
    CleansTo(TrimSpace, before, after)
  }

  ghost predicate NormalizesTo(d: Document, r: Document) {
    r == NormalizeFields(d).(attributes := r.attributes) && TrimsTo(d.attributes, r.attributes)
  }

  method NormalizeDocument(d: Document) returns (r: Document)
    ensures NormalizesTo(d, r)
  {
    var cloned: map<string, string> := map[];
    var left := d.attributes.Keys;
    while left != {}
      invariant left <= d.attributes.Keys
      invariant forall k | k in d.attributes && k !in left && TrimSpace(k) != "" :: TrimSpace(k) in cloned
      invariant forall k | k in cloned :: k != "" &&
                  exists raw :: raw in d.attributes && TrimSpace(raw) == k && cloned[k] == TrimSpace(d.attributes[raw])
      decreases left
    {
      var raw :| raw in left;
      left := left - {raw};
      var key := TrimSpace(raw);
      if key == "" {
        continue;
      }
      cloned := cloned[key := TrimSpace(d.attributes[raw])];
    }
    r := NormalizeFields(d).(attributes := cloned);
  }

  lemma CleanAttributesStay(clean: string -> string,
      before: map<string, string>, after: map<string, string>, again: map<string, string>)
    requires CleansTo(clean, before, after) && CleansTo(clean, after, again)
    requires forall s :: clean(clean(s)) == clean(s)
    ensures again == after
  {
    forall k | k in after
      ensures clean(k) == k && clean(after[k]) == after[k] && k in again
    {
      var raw :| raw in before && clean(raw) == k && after[k] == clean(before[raw]);
    }
    forall k | k in again
      ensures k in after && again[k] == after[k]
    {
      var raw :| raw in after && clean(raw) == k && again[k] == clean(after[raw]);
    }
  }

  lemma FieldsSettle(d: Document)
    ensures NormalizeFields(NormalizeFields(d)) == NormalizeFields(d)
  {
    hide TrimSpace, NormalizeTerms, Sort;
    AllTrimmed(d.documentId);
    AllTrimmed(d.schemaVersion);
    AllTrimmed(d.tenantId);
    AllTrimmed(d.source);
    AllTrimmed(d.sourceEventId);
    AllTrimmed(d.sourceKey);
    AllTrimmed(d.entityType);
    AllTrimmed(d.eventType);
    AllTrimmed(d.title);
    AllTrimmed(d.content);
    AllTrimmed(d.subscriberId);
    AllTrimmed(d.sessionId);
    AllTrimmed(d.requestId);
    AllTrimmed(d.status);
    AllTrimmed(d.outcome);
    AllTrimmed(d.nasIp);
    AllTrimmed(d.clientIp);
    AllTrimmed(d.policyName);
    AllTrimmed(d.rejectReason);
    TermOrder();
    SortIsSort(TermLe, d.tags);
    SortFixed(TermLe, Sort(TermLe, d.tags));
    NormalizeTermsIdempotent(d.terms);
  }

  lemma AttributesSettle(before: map<string, string>, after: map<string, string>, again: map<string, string>)
    requires TrimsTo(before, after) && TrimsTo(after, again)
    ensures again == after
  {
    hide TrimSpace;
    forall s
      ensures TrimSpace(TrimSpace(s)) == TrimSpace(s)
    {
      AllTrimmed(s);
    }
    CleanAttributesStay(TrimSpace, before, after, again);
  }

  /** Normalising a normalised document, as every read of the file does, changes nothing. */
  lemma NormalizeSettles(d: Document, r: Document, again: Document)
    requires NormalizesTo(d, r) && NormalizesTo(r, again)
    ensures again == r
  {
    hide TrimSpace, NormalizeTerms, Sort, TrimsTo;
    FieldsSettle(d);
    AttributesSettle(d.attributes, r.attributes, again.attributes);
  }

  // ---------------------------------------------------------------- filters

  predicate Matches(filter: Query, d: Document) {
    && FieldMatches(filter.tenantId, d.tenantId)
    && FieldMatches(filter.subscriberId, d.subscriberId)
    && FieldMatches(filter.sessionId, d.sessionId)
    && FieldMatches(filter.requestId, d.requestId)
    && FieldMatches(filter.status, d.status)
    && FieldMatches(filter.outcome, d.outcome)
    && FieldMatches(filter.nasIp, d.nasIp)
    && FieldMatches(filter.clientIp, d.clientIp)
    && (filter.from.Some? ==> d.occurredAt >= filter.from.value)
    && (filter.to.Some? ==> d.occurredAt <= filter.to.value)
  }

  // ---------------------------------------------------------------- scoring

  function TermSet(d: Document): set<string> {
    set t | t in d.terms :: Lower(TrimSpace(t))
  }

  function MatchedTerms(queryTerms: seq<string>, terms: set<string>): (matched: seq<string>)
    ensures |matched| <= |queryTerms|
  {
    if queryTerms == [] then []
    else MatchedTerms(queryTerms[..|queryTerms| - 1], terms)
         + (if queryTerms[|queryTerms| - 1] in terms then [queryTerms[|queryTerms| - 1]] else [])
  }

  predicate PhraseMatches(rawQuery: string, d: Document) {
    var query := Lower(TrimSpace(rawQuery));
    query != "" && Contains(Lower(d.title + " " + d.content), query)
  }

  function Score(rawQuery: string, queryTerms: seq<string>, d: Document): real {
    var matched := |MatchedTerms(queryTerms, TermSet(d))|;
    if matched == 0 then 0.0
    else 2.0 * matched as real
         + (if PhraseMatches(rawQuery, d) then 1.5 else 0.0)
         + (if matched == |queryTerms| then 1.0 else 0.0)
  }

  method ScoreDocument(rawQuery: string, queryTerms: seq<string>, d: Document) returns (score: real,
                       matched: seq<string>)
    requires StrictlySorted(queryTerms)
    ensures score == Score(rawQuery, queryTerms, d)
    ensures matched == MatchedTerms(queryTerms, TermSet(d))
  {
    var termSet := TermSet(d);
    matched := [];
    score := 0.0;
    for k := 0 to |queryTerms|
      invariant matched == MatchedTerms(queryTerms[..k], termSet)
      invariant score == 2.0 * |matched| as real
    {
      assert queryTerms[..k + 1][..k] == queryTerms[..k];
      if queryTerms[k] !in termSet {
        continue;
      }
      matched := matched + [queryTerms[k]];
      score := score + 2.0;
    }
    assert queryTerms[..|queryTerms|] == queryTerms;
    if PhraseMatches(rawQuery, d) {
      score := score + 1.5;
    }
    if |matched| == |queryTerms| && |queryTerms| > 0 {
      score := score + 1.0;
    }
    if |matched| == 0 {
      return 0.0, [];
    }
    MatchedSorted(queryTerms, termSet);
    SortFixed(TermLe, matched);
    matched := Sort(TermLe, matched);
  }

  lemma {:induction false} MatchedMembers(queryTerms: seq<string>, terms: set<string>)
    ensures forall t :: t in MatchedTerms(queryTerms, terms) <==> t in queryTerms && t in terms
    ensures |MatchedTerms(queryTerms, terms)| == |queryTerms| <==> forall t :: t in queryTerms ==> t in terms
  {
    if queryTerms != [] {
      var n := |queryTerms| - 1;
      MatchedMembers(queryTerms[..n], terms);
      assert queryTerms == queryTerms[..n] + [queryTerms[n]];
    }
  }

  lemma {:induction false} MatchedSorted(queryTerms: seq<string>, terms: set<string>)
    requires StrictlySorted(queryTerms)
    ensures StrictlySorted(MatchedTerms(queryTerms, terms)) && Sorted(TermLe, MatchedTerms(queryTerms, terms))
  {
    if queryTerms != [] {
      var n := |queryTerms| - 1;
      MatchedSorted(queryTerms[..n], terms);
      MatchedMembers(queryTerms[..n], terms);
      var before := MatchedTerms(queryTerms[..n], terms);
      forall i: nat | i < |before|
        ensures StringLt(before[i], queryTerms[n])
      {
        assert before[i] in queryTerms[..n];
      }
    }
  }

  /** More matched terms always beat fewer, whatever the phrase and all-terms bonuses. */
  lemma MoreTermsScoreHigher(rawQuery: string, queryTerms: seq<string>, fewer: Document, more: Document)
    requires |MatchedTerms(queryTerms, TermSet(fewer))| < |MatchedTerms(queryTerms, TermSet(more))|
    ensures Score(rawQuery, queryTerms, fewer) < Score(rawQuery, queryTerms, more)
  {
  }

  // ---------------------------------------------------------------- ranking

  function HitOf(filter: Query, d: Document): Hit {
    var queryTerms := NormalizeTerms([filter.queryText]);
    Hit(Score(TrimSpace(filter.queryText), queryTerms, d), MatchedTerms(queryTerms, TermSet(d)), d)
  }

  /** A search keeps a document exactly when it shares a term with the query. */
  predicate IsHit(filter: Query, d: Document) {
    HitOf(filter, d).matchedTerms != []
  }

  function HitSet(filter: Query, docs: map<string, Document>): set<Hit> {
    set id | id in docs && IsHit(filter, docs[id]) :: HitOf(filter, docs[id])
  }

  /** Highest score first, then latest occurrence, then latest ingestion. */
  predicate HitLe(a: Hit, b: Hit) {
    a.score > b.score ||
    (a.score == b.score &&
      (a.document.occurredAt > b.document.occurredAt ||
       (a.document.occurredAt == b.document.occurredAt && a.document.ingestedAt >= b.document.ingestedAt)))
  }

  lemma HitOrder()
    ensures TotalPreorder(HitLe)
  {
  }

  predicate KeyedById(docs: map<string, Document>) {
    forall id | id in docs :: docs[id].documentId == id
  }

  /** hits is a possible answer over the filtered documents docs. */
  ghost predicate IsRanking(filter: Query, docs: map<string, Document>, hits: seq<Hit>) {
    exists all: seq<Hit> ::
      Sorted(HitLe, all) && multiset(all) == multiset(HitSet(filter, docs)) && hits == Cut(filter.limit, all)
  }

  method ScoreResults(filter: Query, docs: map<string, Document>) returns (hits: seq<Hit>)
    requires KeyedById(docs)
    ensures IsRanking(filter, docs, hits)
  {
    hide Sort, HitSet, CollectedSoFar, IsRanking, NormalizeTerms, TrimSpace, MatchedTerms, TermSet;
    var queryTerms := Normalize([filter.queryText]);
    NormalizeTermsSpec([filter.queryText]);
    if |queryTerms| == 0 {
      NoTermsNoHits(filter, docs);
      return [];
    }
    hits := [];
    var left := docs.Keys;
    NoDocumentsNoHits(filter, docs);
    while left != {}
      invariant left <= docs.Keys
      invariant CollectedSoFar(filter, docs, left, hits)
      decreases left
    {
      var id :| id in left;
      GrowHits(filter, docs, left, id, hits);
      left := left - {id};
      var score, matched := ScoreDocument(TrimSpace(filter.queryText), queryTerms, docs[id]);
      if score <= 0.0 {
        continue;
      }
      hits := hits + [Hit(score, matched, docs[id])];
    }
    SortedHitsRank(filter, docs, hits);
    hits := Sort(HitLe, hits);
    if filter.limit > 0 && |hits| > filter.limit {
      hits := hits[..filter.limit];
    }
  }

  ghost predicate CollectedSoFar(filter: Query, docs: map<string, Document>, left: set<string>, hits: seq<Hit>) {
    multiset(hits) == multiset(HitSet(filter, docs - left))
  }

  lemma NoTermsNoHits(filter: Query, docs: map<string, Document>)
    requires NormalizeTerms([filter.queryText]) == []
    ensures IsRanking(filter, docs, [])
  {
    assert HitSet(filter, docs) == {};
    var none: seq<Hit> := [];
    assert Sorted(HitLe, none) && multiset(none) == multiset(HitSet(filter, docs)) && none == Cut(filter.limit, none);
  }

  lemma NoDocumentsNoHits(filter: Query, docs: map<string, Document>)
    ensures CollectedSoFar(filter, docs, docs.Keys, [])
  {
    assert docs - docs.Keys == map[];
    assert HitSet(filter, map[]) == {};
  }

  lemma SortedHitsRank(filter: Query, docs: map<string, Document>, hits: seq<Hit>)
    requires CollectedSoFar(filter, docs, {}, hits)
    ensures IsRanking(filter, docs, Cut(filter.limit, Sort(HitLe, hits)))
  {
    assert docs - {} == docs;
    HitOrder();
    SortIsSort(HitLe, hits);
  }

  lemma GrowHitSet(filter: Query, docs: map<string, Document>, left: set<string>, id: string)
    requires KeyedById(docs) && left <= docs.Keys && id in left
    ensures HitSet(filter, docs - (left - {id}))
         == HitSet(filter, docs - left) + (if IsHit(filter, docs[id]) then {HitOf(filter, docs[id])} else {})
    ensures HitOf(filter, docs[id]) !in HitSet(filter, docs - left)
  {
    var before, after := docs - left, docs - (left - {id});
    assert after.Keys == before.Keys + {id};
    assert forall k | k in before :: before[k] == docs[k];
    assert forall k | k in after :: after[k] == docs[k];
  }

  lemma GrowHits(filter: Query, docs: map<string, Document>, left: set<string>, id: string, hits: seq<Hit>)
    requires KeyedById(docs) && left <= docs.Keys && id in left
    requires CollectedSoFar(filter, docs, left, hits)
    ensures CollectedSoFar(filter, docs, left - {id},
                           if IsHit(filter, docs[id]) then hits + [HitOf(filter, docs[id])] else hits)
  {
    GrowHitSet(filter, docs, left, id);
  }

  /** The sort keys of a hit. */
  predicate SameRank(a: Hit, b: Hit) {
    && a.score == b.score
    && a.document.occurredAt == b.document.occurredAt
    && a.document.ingestedAt == b.document.ingestedAt
  }

  /** Two answers over the same documents have the same sequence of (score, time, time) keys. */
  lemma RankingsAgree(filter: Query, docs: map<string, Document>, a: seq<Hit>, b: seq<Hit>)
    requires IsRanking(filter, docs, a) && IsRanking(filter, docs, b)
    ensures |a| == |b| && forall i: nat | i < |a| :: SameRank(a[i], b[i])
  {
    var allA :| Sorted(HitLe, allA) && multiset(allA) == multiset(HitSet(filter, docs)) && a == Cut(filter.limit, allA);
    var allB :| Sorted(HitLe, allB) && multiset(allB) == multiset(HitSet(filter, docs)) && b == Cut(filter.limit, allB);
    HitOrder();
    SortsAgree(HitLe, allA, allB);
    forall i: nat | i < |a|
      ensures SameRank(a[i], b[i])
    {
      assert Equivalent(HitLe, allA[i], allB[i]);
    }
  }

  /**
   * A search returns hits of distinct matching documents only, best first by
   * matched terms; a document it leaves out matches no more terms, and ranks no
   * higher, than any document it returns, and is left out only to keep the limit.
   */
  lemma RankingKeepsBest(filter: Query, docs: map<string, Document>, hits: seq<Hit>)
    requires IsRanking(filter, docs, hits)
    ensures forall h | h in hits :: h in HitSet(filter, docs)
    ensures forall i: nat, j: nat | i < j < |hits| ::
              HitLe(hits[i], hits[j]) && |hits[i].matchedTerms| >= |hits[j].matchedTerms|
    ensures forall h | h in HitSet(filter, docs) && h !in hits ::
              |hits| == filter.limit > 0 &&
              forall k | k in hits :: HitLe(k, h) && |k.matchedTerms| >= |h.matchedTerms|
  {
    var all :| Sorted(HitLe, all) && multiset(all) == multiset(HitSet(filter, docs)) && hits == Cut(filter.limit, all);
    HitOrder();
    forall h
      ensures h in all <==> h in HitSet(filter, docs)
    {
      assert h in all <==> h in multiset(all);
    }
    assert forall h | h in hits :: h in all;
    forall i: nat, j: nat | i < j < |hits|
      ensures HitLe(hits[i], hits[j]) && |hits[i].matchedTerms| >= |hits[j].matchedTerms|
    {
      assert HitLe(all[i], all[j]);
      RankByTerms(filter, docs, hits[i], hits[j]);
    }
    forall h | h in HitSet(filter, docs) && h !in hits
      ensures |hits| == filter.limit > 0
      ensures forall k | k in hits :: HitLe(k, h) && |k.matchedTerms| >= |h.matchedTerms|
    {
      CutKeepsBest(HitLe, filter.limit, all, h);
      forall k | k in hits
        ensures HitLe(k, h) && |k.matchedTerms| >= |h.matchedTerms|
      {
        RankByTerms(filter, docs, k, h);
      }
    }
  }

  lemma RankByTerms(filter: Query, docs: map<string, Document>, a: Hit, b: Hit)
    requires a in HitSet(filter, docs) && b in HitSet(filter, docs) && HitLe(a, b)
    ensures |a.matchedTerms| >= |b.matchedTerms|
  {
    if |a.matchedTerms| < |b.matchedTerms| {
      MoreTermsScoreHigher(TrimSpace(filter.queryText), NormalizeTerms([filter.queryText]), a.document, b.document);
    }
  }
}
