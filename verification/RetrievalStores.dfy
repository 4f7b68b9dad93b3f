/**
 * The two back ends of internal/storage/metadata/retrieval/store.go and when
 * they agree. The memory store keeps the last document appended under an id and
 * filters at search time; the file store filters every version in the log and
 * folds the survivors with pickLatest.
 */
module RetrievalStores {
  import opened Wrappers
  import opened Sorting
  import opened Text
  import opened Terms
  import opened Retrieval

  /** Ready to be stored: normalised and valid. */
  ghost predicate Settled(d: Document) {
    NormalizesTo(d, d) && ValidDocument(d)
  }

  predicate Newer(existing: Document, candidate: Document) {
    candidate.ingestedAt > existing.ingestedAt ||
    (candidate.ingestedAt == existing.ingestedAt && candidate.occurredAt > existing.occurredAt)
  }

  function PickLatest(existing: Document, candidate: Document): Document {
    if Newer(existing, candidate) then candidate else existing
  }

  /** The documents FileStore.Search gathers from a log. */
  function FileDocuments(filter: Query, log: seq<Document>): (docs: map<string, Document>)
    ensures KeyedById(docs)
  {
    if log == [] then map[]
    else
      var docs := FileDocuments(filter, log[..|log| - 1]);
      var d := log[|log| - 1];
      if !Matches(filter, d) then docs
      else if d.documentId in docs then docs[d.documentId := PickLatest(docs[d.documentId], d)]
      else docs[d.documentId := d]
  }

  /** The map of a MemoryStore that was given the log, one Append a document. */
  function MemoryMap(log: seq<Document>): (docs: map<string, Document>)
    ensures KeyedById(docs)
  {
    if log == [] then map[]
    else MemoryMap(log[..|log| - 1])[log[|log| - 1].documentId := log[|log| - 1]]
  }

  function Filtered(filter: Query, docs: map<string, Document>): map<string, Document> {
    map id | id in docs && Matches(filter, docs[id]) :: docs[id]
  }

  // ---------------------------------------------------------------- the stores

  /** Some normalisation of the document fails validation. */
  ghost predicate Rejected(document: Document) {
    exists n :: NormalizesTo(document, n) && !ValidDocument(n)
  }

  /** n is what an Append of the document may store. */
  ghost predicate Accepts(document: Document, n: Document) {
    NormalizesTo(document, n) && Settled(n)
  }

  method Prepare(document: Document) returns (stored: Option<Document>)
    ensures stored.Some? ==> Accepts(document, stored.value)
    ensures stored.None? ==> Rejected(document)
  {
    var normalized := NormalizeDocument(document);
    if !ValidDocument(normalized) {
      return None;
    }
    var again := NormalizeDocument(normalized);
    NormalizeSettles(document, normalized, again);
    return Some(normalized);
  }

  lemma AcceptsSettled(document: Document, n: Document)
    requires Accepts(document, n)
    ensures Settled(n)
  {
  }

  ghost predicate AllSettled(log: seq<Document>) {
    forall d | d in log :: Settled(d)
  }

  lemma SettledAppend(log: seq<Document>, n: Document)
    requires AllSettled(log) && Settled(n)
    ensures AllSettled(log + [n])
  {
  }

  /** Reading a record back normalises and validates it again, which changes nothing. */
  method Reread(document: Document) returns (again: Option<Document>)
    requires Settled(document)
    ensures again == Some(document)
  {
    var normalized := NormalizeDocument(document);
    NormalizeSettles(document, document, normalized);
    if !ValidDocument(normalized) {
      return None;
    }
    return Some(normalized);
  }

  class FileStore {
    var log: seq<Document>

    ghost predicate Valid()
      reads this
    {
      AllSettled(log)
    }

    constructor ()
      ensures Valid() && log == []
    {
      log := [];
    }

    method Append(document: Document) returns (stored: Option<Document>)
      requires Valid()
      modifies this
      ensures Valid()
      ensures stored.Some? ==> Accepts(document, stored.value) && log == old(log) + [stored.value]
      ensures stored.None? ==> Rejected(document) && log == old(log)
    {
      stored := Prepare(document);
      if stored.Some? {
        AcceptsSettled(document, stored.value);
        SettledAppend(log, stored.value);
        log := log + [stored.value];
      }
    }

    method Search(filter: Query) returns (result: Result<seq<Hit>, string>)
      requires Valid()
      ensures result.Ok? && IsRanking(filter, FileDocuments(filter, log), result.value)
    {
      hide Matches, Settled, IsRanking;
      var documents: map<string, Document> := map[];
      for n := 0 to |log|
        invariant documents == FileDocuments(filter, log[..n])
      {
        assert log[..n + 1][..n] == log[..n];
        assert log[n] in log;
        var read := Reread(log[n]);
        if read.None? {
          return Err("validate retrieval metadata");
        }
        var document := read.value;
        if !Matches(filter, document) {
          continue;
        }
        if document.documentId in documents {
          documents := documents[document.documentId := PickLatest(documents[document.documentId], document)];
          continue;
        }
        documents := documents[document.documentId := document];
      }
      assert log[..|log|] == log;
      var hits := ScoreResults(filter, documents);
      return Ok(hits);
    }
  }

  class MemoryStore {
    var documents: map<string, Document>

    constructor ()
      ensures KeyedById(documents) && documents == map[]
    {
      documents := map[];
    }

    method Append(document: Document) returns (stored: Option<Document>)
      requires KeyedById(documents)
      modifies this
      ensures KeyedById(documents)
      ensures stored.Some? ==>
                && Accepts(document, stored.value)
                && documents == old(documents)[stored.value.documentId := stored.value]
      ensures stored.None? ==> Rejected(document) && documents == old(documents)
    {
      stored := Prepare(document);
      if stored.Some? {
        KeyedUpdate(documents, stored.value);
        documents := documents[stored.value.documentId := stored.value];
      }
    }

    method Search(filter: Query) returns (hits: seq<Hit>)
      requires KeyedById(documents)
      ensures IsRanking(filter, Filtered(filter, documents), hits)
    {
      var matching: map<string, Document> := map[];
      var left := documents.Keys;
      while left != {}
        invariant left <= documents.Keys
        invariant matching == Filtered(filter, documents - left)
        decreases left
      {
        var id :| id in left;
        FilteredGrows(filter, documents, left, id);
        left := left - {id};
        if !Matches(filter, documents[id]) {
          continue;
        }
        matching := matching[id := documents[id]];
      }
      assert documents - left == documents;
      hits := ScoreResults(filter, matching);
    }
  }

  lemma KeyedUpdate(documents: map<string, Document>, n: Document)
    requires KeyedById(documents)
    ensures KeyedById(documents[n.documentId := n])
  {
  }

  lemma FilteredGrows(filter: Query, documents: map<string, Document>, left: set<string>, id: string)
    requires id in left && left <= documents.Keys
    ensures Filtered(filter, documents - (left - {id}))
         == if Matches(filter, documents[id]) then Filtered(filter, documents - left)[id := documents[id]]
            else Filtered(filter, documents - left)
  {
  }

  // ---------------------------------------------------------------- agreement

  /** Versions of one document are appended in strictly increasing (IngestedAt, OccurredAt). */
  predicate StrictVersions(log: seq<Document>) {
    forall i: nat, j: nat | i < j < |log| && log[i].documentId == log[j].documentId :: Newer(log[i], log[j])
  }

  function LastVersion(log: seq<Document>, id: string): (d: Option<Document>)
    ensures d.Some? ==> d.value in log && d.value.documentId == id
  {
    if log == [] then None
    else if log[|log| - 1].documentId == id then Some(log[|log| - 1])
    else LastVersion(log[..|log| - 1], id)
  }

  function LastMatch(filter: Query, log: seq<Document>, id: string): (d: Option<Document>)
    ensures d.Some? ==> d.value in log && d.value.documentId == id && Matches(filter, d.value)
    ensures d.None? ==> forall e | e in log && e.documentId == id :: !Matches(filter, e)
  {
    if log == [] then None
    else
      var last := log[|log| - 1];
      assert log == log[..|log| - 1] + [last];
      if last.documentId == id && Matches(filter, last) then Some(last)
      else LastMatch(filter, log[..|log| - 1], id)
  }

  lemma {:induction false} FileKeepsLastMatch(filter: Query, log: seq<Document>, id: string)
    requires StrictVersions(log)
    ensures Lookup(FileDocuments(filter, log), id) == LastMatch(filter, log, id)
  {
    hide Matches;
    if log != [] {
      var n := |log| - 1;
      var earlier := log[..n];
      assert forall i: nat | i < n :: earlier[i] == log[i];
      FileKeepsLastMatch(filter, earlier, id);
      var before := LastMatch(filter, earlier, id);
      if before.Some? && log[n].documentId == id {
        var i: nat :| i < n && earlier[i] == before.value;
        assert Newer(log[i], log[n]);
      }
    }
  }

  lemma {:induction false} MemoryKeepsLastVersion(log: seq<Document>, id: string)
    ensures Lookup(MemoryMap(log), id) == LastVersion(log, id)
  {
    if log != [] {
      MemoryKeepsLastVersion(log[..|log| - 1], id);
    }
  }

  lemma {:induction false} LastVersionMatchIsLastMatch(filter: Query, log: seq<Document>, id: string)
    requires LastVersion(log, id).Some? && Matches(filter, LastVersion(log, id).value)
    ensures LastMatch(filter, log, id) == LastVersion(log, id)
  {
    if log[|log| - 1].documentId != id {
      LastVersionMatchIsLastMatch(filter, log[..|log| - 1], id);
    }
  }

  lemma {:induction false} HasLastVersion(log: seq<Document>, d: Document)
    requires d in log
    ensures LastVersion(log, d.documentId).Some?
  {
    if log[|log| - 1].documentId != d.documentId {
      assert log == log[..|log| - 1] + [log[|log| - 1]];
      HasLastVersion(log[..|log| - 1], d);
    }
  }

  /** No document that matches the filter has a later version that does not. */
  predicate NoStaleMatch(filter: Query, log: seq<Document>) {
    forall d | d in log && Matches(filter, d) ::
      var last := LastVersion(log, d.documentId); last.Some? && Matches(filter, last.value)
  }

  lemma AgreeOn(filter: Query, log: seq<Document>, id: string)
    requires StrictVersions(log)
    ensures var last := LastVersion(log, id);
            var inFile := Lookup(FileDocuments(filter, log), id);
            var inMemory := Lookup(Filtered(filter, MemoryMap(log)), id);
            && (last.Some? && Matches(filter, last.value) ==> inFile == inMemory == last)
            && (last.None? ==> inFile == inMemory == None)
            && (last.Some? && !Matches(filter, last.value) ==>
                  inMemory == None && (inFile == None <==> forall d | d in log
                      && d.documentId == id :: !Matches(filter, d)))
  {
    FileKeepsLastMatch(filter, log, id);
    MemoryKeepsLastVersion(log, id);
    var last := LastVersion(log, id);
    if last.Some? && Matches(filter, last.value) {
      LastVersionMatchIsLastMatch(filter, log, id);
    }
    var match' := LastMatch(filter, log, id);
    if match'.Some? {
      HasLastVersion(log, match'.value);
    }
  }

  /**
   * With versions appended in order, the file store gathers exactly the
   * documents the memory store does if and only if no older version matches a
   * filter that the last version fails: the file filters before it folds.
   */
  lemma FileAgreesExactly(filter: Query, log: seq<Document>)
    requires StrictVersions(log)
    ensures FileDocuments(filter, log) == Filtered(filter, MemoryMap(log)) <==> NoStaleMatch(filter, log)
  {
    var inFile, inMemory := FileDocuments(filter, log), Filtered(filter, MemoryMap(log));
    if NoStaleMatch(filter, log) {
      forall id
        ensures Lookup(inFile, id) == Lookup(inMemory, id)
      {
        AgreeOn(filter, log, id);
      }
      assert forall id :: id in inFile <==> Lookup(inFile, id).Some?;
      assert forall id :: id in inMemory <==> Lookup(inMemory, id).Some?;
      assert forall id | id in inFile :: Lookup(inFile, id) == Some(inFile[id]);
    }
    if inFile == inMemory {
      forall d | d in log && Matches(filter, d)
        ensures var last := LastVersion(log, d.documentId); last.Some? && Matches(filter, last.value)
      {
        HasLastVersion(log, d);
        AgreeOn(filter, log, d.documentId);
      }
    }
  }

  /** Versions of one document agree on every field a filter can look at. */
  predicate StableFields(log: seq<Document>) {
    forall d, e | d in log && e in log && d.documentId == e.documentId ::
      && d.tenantId == e.tenantId && d.subscriberId == e.subscriberId && d.sessionId == e.sessionId
      && d.requestId == e.requestId && d.status == e.status && d.outcome == e.outcome
      && d.nasIp == e.nasIp && d.clientIp == e.clientIp && d.occurredAt == e.occurredAt
  }

  lemma StableFieldsNeverGoStale(filter: Query, log: seq<Document>)
    requires StableFields(log)
    ensures NoStaleMatch(filter, log) && NoStaleHit(filter, log)
  {
    forall d | d in log && Matches(filter, d)
      ensures var last := LastVersion(log, d.documentId); last.Some? && Matches(filter, last.value)
    {
      HasLastVersion(log, d);
    }
  }

  // ---------------------------------------------------------------- answers

  /** No hit that the file still finds has a later version that fails the filter. */
  predicate NoStaleHit(filter: Query, log: seq<Document>) {
    forall d | d in log && LastMatch(filter, log, d.documentId) == Some(d) && IsHit(filter, d) ::
      var last := LastVersion(log, d.documentId); last.Some? && Matches(filter, last.value)
  }

  /** What one id contributes to the two searches. */
  lemma HitsOfId(filter: Query, log: seq<Document>, id: string)
    requires StrictVersions(log)
    ensures var file := Lookup(FileDocuments(filter, log), id);
            var memory := Lookup(Filtered(filter, MemoryMap(log)), id);
            var found := LastMatch(filter, log, id);
            && file == found
            && (found.Some? ==> LastVersion(log, id).Some?)
            && (found.Some? ==> memory == if Matches(filter, LastVersion(log, id).value) then found else None)
            && (found.None? ==> memory == None)
  {
    FileKeepsLastMatch(filter, log, id);
    AgreeOn(filter, log, id);
    var found := LastMatch(filter, log, id);
    if found.Some? {
      HasLastVersion(log, found.value);
      if Matches(filter, LastVersion(log, id).value) {
        LastVersionMatchIsLastMatch(filter, log, id);
      }
    }
  }

  lemma HitSetMember(filter: Query, docs: map<string, Document>, h: Hit)
    requires KeyedById(docs)
    ensures h in HitSet(filter, docs) <==>
              && Lookup(docs, h.document.documentId) == Some(h.document)
              && IsHit(filter, h.document) && h == HitOf(filter, h.document)
  {
    hide IsHit, NormalizeTerms, Score;
  }

  lemma FilteredIsKeyed(filter: Query, docs: map<string, Document>)
    requires KeyedById(docs)
    ensures KeyedById(Filtered(filter, docs))
  {
    hide Matches;
  }

  /**
   * With versions appended in order, both searches choose from the same hits
   * if and only if no hit of the file search has a later version that fails
   * the filter.
   */
  lemma HitsAgreeExactly(filter: Query, log: seq<Document>)
    requires StrictVersions(log)
    ensures HitSet(filter, FileDocuments(filter, log)) == HitSet(filter, Filtered(filter, MemoryMap(log)))
            <==> NoStaleHit(filter, log)
  {
    hide Matches, IsHit, HitSet, FileDocuments, MemoryMap, Filtered, StrictVersions, LastMatch, LastVersion, HitOf;
    var file, memory := FileDocuments(filter, log), Filtered(filter, MemoryMap(log));
    FilteredIsKeyed(filter, MemoryMap(log));
    if NoStaleHit(filter, log) {
      forall h
        ensures h in HitSet(filter, file) <==> h in HitSet(filter, memory)
      {
        HitSetMember(filter, file, h);
        HitSetMember(filter, memory, h);
        HitsOfId(filter, log, h.document.documentId);
      }
    }
    if HitSet(filter, file) == HitSet(filter, memory) {
      forall d | d in log && LastMatch(filter, log, d.documentId) == Some(d) && IsHit(filter, d)
        ensures var last := LastVersion(log, d.documentId); last.Some? && Matches(filter, last.value)
      {
        HitsOfId(filter, log, d.documentId);
        HitOfDocument(filter, d);
        HitSetMember(filter, file, HitOf(filter, d));
        HitSetMember(filter, memory, HitOf(filter, d));
      }
    }
  }

  lemma HitOfDocument(filter: Query, d: Document)
    ensures HitOf(filter, d).document == d
  {
  }

  /**
   * The file-backed search refines the in-memory one: over the same history,
   * without a stale hit, both choose from the same hits and answer with the
   * same sequence of (score, OccurredAt, IngestedAt).
   */
  lemma FileSearchRefinesMemory(filter: Query, log: seq<Document>, fromFile: seq<Hit>, fromMemory: seq<Hit>)
    requires StrictVersions(log) && NoStaleHit(filter, log)
    requires IsRanking(filter, FileDocuments(filter, log), fromFile)
    requires IsRanking(filter, Filtered(filter, MemoryMap(log)), fromMemory)
    ensures |fromFile| == |fromMemory| && forall i: nat | i < |fromFile| :: SameRank(fromFile[i], fromMemory[i])
  {
    hide NoStaleHit, StrictVersions, HitSet, SameRank;
    HitsAgreeExactly(filter, log);
    SameHitsSameRanking(filter, FileDocuments(filter, log), Filtered(filter, MemoryMap(log)), fromMemory);
    RankingsAgree(filter, FileDocuments(filter, log), fromFile, fromMemory);
  }

  lemma SameHitsSameRanking(filter: Query, a: map<string, Document>, b: map<string, Document>, hits: seq<Hit>)
    requires HitSet(filter, a) == HitSet(filter, b) && IsRanking(filter, b, hits)
    ensures IsRanking(filter, a, hits)
  {
    hide HitSet, HitLe;
  }

  /** The limit did not cut the answer. */
  predicate Uncut(filter: Query, hits: seq<Hit>) {
    filter.limit <= 0 || |hits| < filter.limit
  }

  /** Answers that were not cut hold the same hits if and only if there is no stale hit. */
  lemma AnswersAgreeExactly(filter: Query, log: seq<Document>, fromFile: seq<Hit>, fromMemory: seq<Hit>)
    requires StrictVersions(log) && Uncut(filter, fromFile) && Uncut(filter, fromMemory)
    requires IsRanking(filter, FileDocuments(filter, log), fromFile)
    requires IsRanking(filter, Filtered(filter, MemoryMap(log)), fromMemory)
    ensures (forall h :: h in fromFile <==> h in fromMemory) <==> NoStaleHit(filter, log)
  {
    hide StrictVersions, NoStaleHit, HitSet, FileDocuments, MemoryMap, Filtered;
    HitsAgreeExactly(filter, log);
    UncutHits(filter, FileDocuments(filter, log), fromFile);
    UncutHits(filter, Filtered(filter, MemoryMap(log)), fromMemory);
  }

  lemma UncutHits(filter: Query, docs: map<string, Document>, hits: seq<Hit>)
    requires IsRanking(filter, docs, hits) && Uncut(filter, hits)
    ensures forall h :: h in hits <==> h in HitSet(filter, docs)
  {
    hide HitSet, HitLe;
    var all :| Sorted(HitLe, all) && multiset(all) == multiset(HitSet(filter, docs)) && hits == Cut(filter.limit, all);
    forall h
      ensures h in all <==> h in HitSet(filter, docs)
    {
      assert h in all <==> h in multiset(all);
    }
  }

  // ---------------------------------------------------------------- a stale hit

  const STARTED := Document("d", "v", "t", "r", "e", "k", ENTITY_SESSION, "n", 1, 1, "n", "n", "bob", "s", "", "start",
                            "", "", "", "", "", [], ["net"], map[])
  const STOPPED := STARTED.(status := "stop", ingestedAt := 2)
  const NET_STARTS := Query("", "net", "", "", "", "start", "", "", "", None, None, 0)

  /** A term made of one run of letters is its own normalisation. */
  lemma OneTerm()
    ensures NormalizeTerms(["net"]) == ["net"]
  {
    hide NormalizeTerms, IsTerm, Lower;
    var terms := NormalizeTerms(["net"]);
    NormalizeTermsSpec(["net"]);
    NetIsTerm();
    forall t
      ensures t in terms <==> t in ["net"]
    {
      if IsTermOf(["net"], t) {
        OnlyTermOfNet(t);
      }
    }
    StrictlySortedUnique(terms, ["net"]);
  }

  lemma NetIsTerm()
    ensures IsTermOf(["net"], "net")
  {
    assert Lower("net") == "net";
    assert MaxRun(IsAlnum, "net", 0, 3) && "net" == "net"[0..3];
    assert IsToken("net", "net");
  }

  lemma OnlyTermOfNet(t: string)
    requires IsTermOf(["net"], t)
    ensures t == "net"
  {
    var s := "net";
    assert Lower(s) == s;
    assert IsAlnum(s[0]) && IsAlnum(s[1]) && IsAlnum(s[2]);
    if IsToken(s, t) {
      var a: nat, b: nat :| MaxRun(IsAlnum, s, a, b) && b - a >= 2 && t == s[a..b];
      WholeOfNet(IsAlnum, a, b);
    } else {
      var i: nat, a: nat, b: nat, j: nat :| FieldTermAt(s, i, a, b, j) && t == s[a..b];
      WholeOfNet(NotSpace, i, j);
      assert !IsPunctuation(s[0]) && !IsPunctuation(s[2]);
      assert a == 0 && b == 3;
    }
  }

  lemma WholeOfNet(p: char -> bool, a: nat, b: nat)
    requires p('n') && p('e') && p('t') && MaxRun(p, "net", a, b)
    ensures a == 0 && b == 3
  {
    var s := "net";
    assert s[0] == 'n' && s[1] == 'e' && s[2] == 't';
    assert forall k: nat | k < 3 :: p(s[k]);
  }

  /** A document whose texts have no outer spaces and whose terms are normal is left as it is. */
  lemma PlainDocumentStays(d: Document)
    requires forall s | s in Texts(d) :: BareEnds(IsSpace, s)
    requires d.tags == [] && NormalizeTerms(d.terms) == d.terms && d.attributes == map[]
    ensures NormalizesTo(d, d)
    ensures forall s | s in Texts(d) :: Trimmed(s) && (s != "" ==> !Blank(s))
  {
    hide NormalizeTerms, BareEnds;
    forall s | s in Texts(d)
      ensures Trimmed(s) && (s != "" ==> !Blank(s))
    {
      BareText(s);
    }
    TextsListed(d);
    assert Sort(TermLe, d.tags) == [];
  }

  lemma BareText(s: string)
    requires BareEnds(IsSpace, s)
    ensures Trimmed(s) && (s != "" ==> !Blank(s))
  {
    TrimBare(IsSpace, s);
    if s != "" {
      NotBlank(s, 0);
    }
  }

  function Texts(d: Document): seq<string> {
    [d.documentId, d.schemaVersion, d.tenantId, d.source, d.sourceEventId, d.sourceKey, d.entityType, d.eventType,
     d.title, d.content, d.subscriberId, d.sessionId, d.requestId, d.status, d.outcome, d.nasIp, d.clientIp,
     d.policyName, d.rejectReason]
  }

  lemma TextsListed(d: Document)
    ensures d.documentId in Texts(d) && d.schemaVersion in Texts(d) && d.tenantId in Texts(d)
    ensures d.source in Texts(d) && d.sourceEventId in Texts(d) && d.sourceKey in Texts(d)
    ensures d.entityType in Texts(d) && d.eventType in Texts(d) && d.title in Texts(d)
    ensures d.content in Texts(d) && d.subscriberId in Texts(d) && d.sessionId in Texts(d)
    ensures d.requestId in Texts(d) && d.status in Texts(d) && d.outcome in Texts(d)
    ensures d.nasIp in Texts(d) && d.clientIp in Texts(d) && d.policyName in Texts(d)
    ensures d.rejectReason in Texts(d)
  {
  }

  lemma StartedIsSettled(d: Document)
    requires d == STARTED || d == STOPPED
    ensures Settled(d)
  {
    hide NormalizesTo, NormalizeTerms;
    OneTerm();
    assert forall s | s in Texts(d) :: BareEnds(IsSpace, s);
    PlainDocumentStays(d);
    TextsListed(d);
    assert Trimmed(d.entityType);
  }

  lemma StaleDocuments()
    ensures FileDocuments(NET_STARTS, [STARTED, STOPPED]) == map["d" := STARTED]
    ensures Filtered(NET_STARTS, MemoryMap([STARTED, STOPPED])) == map[]
  {
    var log := [STARTED, STOPPED];
    assert log[..1] == [STARTED] && log[..1][..0] == [];
    assert TrimSpace("start") == "start" && TrimSpace("stop") == "stop" && TrimSpace("") == "";
    assert |Lower("start")| != |Lower("stop")|;
    assert Matches(NET_STARTS, STARTED) && !Matches(NET_STARTS, STOPPED);
    assert FileDocuments(NET_STARTS, [STARTED]) == map["d" := STARTED];
    assert MemoryMap([STARTED]) == map["d" := STARTED];
    assert MemoryMap(log) == map["d" := STOPPED];
  }

  lemma StartedIsHit()
    ensures IsHit(NET_STARTS, STARTED)
  {
    hide NormalizeTerms;
    OneTerm();
    TrimBare(IsSpace, "net");
    assert Lower("net") == "net";
    assert "net" in STARTED.terms && "net" in TermSet(STARTED);
    assert ["net"][..0] == [];
    assert MatchedTerms(["net"], TermSet(STARTED)) == ["net"];
  }

  /**
   * A stored session document that starts with status start and is indexed
   * again with status stop: asked for "net" among the starts, every answer of
   * the file store holds the older version and the memory store answers nothing.
   */
  lemma StaleMatchExists(fromFile: seq<Hit>, fromMemory: seq<Hit>)
    requires IsRanking(NET_STARTS, FileDocuments(NET_STARTS, [STARTED, STOPPED]), fromFile)
    requires IsRanking(NET_STARTS, Filtered(NET_STARTS, MemoryMap([STARTED, STOPPED])), fromMemory)
    ensures Settled(STARTED) && Settled(STOPPED) && StrictVersions([STARTED, STOPPED])
    ensures fromFile == [HitOf(NET_STARTS, STARTED)] && fromMemory == []
  {
    hide Settled, IsHit, HitOf, FileDocuments, MemoryMap, Filtered, HitLe;
    StartedIsSettled(STARTED);
    StartedIsSettled(STOPPED);
    StaleDocuments();
    StartedIsHit();
    var docs := map["d" := STARTED];
    var hit := HitOf(NET_STARTS, STARTED);
    assert "d" in docs && docs["d"] == STARTED;
    assert HitSet(NET_STARTS, docs) == {hit};
    OneHit(NET_STARTS, docs, hit, fromFile);
    NoHits(NET_STARTS, fromMemory);
  }

  lemma OneHit(filter: Query, docs: map<string, Document>, hit: Hit, hits: seq<Hit>)
    requires IsRanking(filter, docs, hits) && HitSet(filter, docs) == {hit}
    ensures hits == [hit]
  {
    hide HitSet, HitLe;
    var all :| Sorted(HitLe, all) && multiset(all) == multiset(HitSet(filter, docs)) && hits == Cut(filter.limit, all);
    assert |all| == |multiset(all)| == 1;
    assert all[0] in multiset(all);
  }

  lemma NoHits(filter: Query, hits: seq<Hit>)
    requires IsRanking(filter, map[], hits)
    ensures hits == []
  {
    hide HitLe, HitOf, IsHit;
    assert HitSet(filter, map[]) == {};
    var all :| Sorted(HitLe, all) && multiset(all) == multiset(HitSet(filter, map[])) && hits == Cut(filter.limit, all);
    assert |all| == |multiset(all)| == 0;
  }
}
