/**
 * From an event to an answer: the index service builds a document and appends
 * it (internal/services/index/service.go), and a search finds it.
 */
module IndexedSearch {
  import opened Wrappers
  import opened Sorting
  import opened Text
  import opened Terms
  import opened Events
  import opened Retrieval
  import opened RetrievalStores
  import opened Answers
  import opened Index

  /** Normalising keeps a built document valid, so Append cannot refuse it. */
  lemma BuiltStaysValid(values: set<string>, document: Document, stored: Document)
    requires TermsOf(values, document.terms) && ValidDocument(document) && NormalizesTo(document, stored)
    ensures ValidDocument(stored) && stored.terms == document.terms
  {
    hide NormalizeTerms, TrimSpace, Blank;
    TermsStay(values, document, stored);
    TextsStay(document);
    assert stored == NormalizeFields(document).(attributes := stored.attributes);
  }

  lemma TermsStay(values: set<string>, document: Document, stored: Document)
    requires TermsOf(values, document.terms) && NormalizesTo(document, stored)
    ensures stored.terms == document.terms
  {
    hide NormalizesTo;
    StoredTerms(values, document, stored, "");
  }

  lemma TextsStay(d: Document)
    ensures forall s | s in Texts(d) :: Blank(TrimSpace(s)) <==> Blank(s)
    ensures TrimSpace(TrimSpace(d.entityType)) == TrimSpace(d.entityType)
    ensures d.documentId in Texts(d) && d.schemaVersion in Texts(d) && d.tenantId in Texts(d) && d.source in Texts(d)
    ensures d.sourceEventId in Texts(d) && d.sourceKey in Texts(d) && d.entityType in Texts(d)
            && d.eventType in Texts(d)
    ensures d.title in Texts(d) && d.content in Texts(d) && d.subscriberId in Texts(d) && d.sessionId in Texts(d)
    ensures d.status in Texts(d) && d.requestId in Texts(d) && d.outcome in Texts(d)
  {
    hide TrimSpace, Blank, Texts;
    TextsListed(d);
    forall s | s in Texts(d)
      ensures Blank(TrimSpace(s)) <==> Blank(s)
    {
      TrimNotBlank(s);
    }
    AllTrimmed(d.entityType);
  }

  /** A document of the store that has exactly the terms of some indexed values. */
  ghost predicate Indexes(values: set<string>, stored: Document) {
    Settled(stored) && TermsOf(values, stored.terms)
  }

  lemma BuiltIsStored(values: set<string>, document: Document, stored: Document)
    requires TermsOf(values, document.terms) && ValidDocument(document) && Accepts(document, stored)
    ensures Indexes(values, stored)
  {
    hide ValidDocument, NormalizesTo, TermsOf;
    TermsStay(values, document, stored);
  }

  lemma NeverRejected(values: set<string>, document: Document)
    requires TermsOf(values, document.terms) && ValidDocument(document)
    ensures !Rejected(document)
  {
    hide ValidDocument, NormalizesTo, TermsOf;
    forall n | NormalizesTo(document, n)
      ensures ValidDocument(n)
    {
      BuiltStaysValid(values, document, n);
    }
  }

  /** What the store may hold of an event that was indexed. */
  ghost predicate IndexedAsSession(e: SessionEvent, stored: Document) {
    exists terms: seq<string> :: NormalizesTo(SessionFields(e, terms), stored)
  }

  ghost predicate IndexedAsAccess(e: AccessEvent, stored: Document) {
    exists terms: seq<string> :: NormalizesTo(AccessFields(e, terms), stored)
  }

  lemma IdOfStored(document: Document, stored: Document)
    requires NormalizesTo(document, stored)
    ensures stored.documentId == TrimSpace(document.documentId)
  {
    hide TrimSpace, NormalizeTerms;
  }

  lemma AcceptedAsIs(document: Document, stored: Document)
    requires Accepts(document, stored)
    ensures NormalizesTo(document, stored)
  {
  }

  /** The index loop's step for a session event: build the document and append it. */
  method IndexSession(e: SessionEvent, store: MemoryStore) returns (stored: Option<Document>)
    requires KeyedById(store.documents)
    modifies store
    ensures KeyedById(store.documents)
    ensures stored.Some? <==> ValidSession(e)
    ensures stored.Some? ==> Indexes(SessionValues(e), stored.value) && IndexedAsSession(e, stored.value)
    ensures stored.Some? ==> stored.value.documentId == TrimSpace(e.eventId)
    ensures store.documents == if stored.Some? then old(store.documents)[stored.value.documentId := stored.value]
                               else old(store.documents)
  {
    hide ValidDocument, TermsOf, Settled, SessionValues, ValidSession, Rejected, NormalizesTo, Accepts;
    var document := BuildSessionDocument(e);
    if document.None? {
      return None;
    }
    NeverRejected(SessionValues(e), document.value);
    stored := store.Append(document.value);
    BuiltIsStored(SessionValues(e), document.value, stored.value);
    AcceptedAsIs(document.value, stored.value);
    IdOfStored(document.value, stored.value);
  }

  method IndexAccess(e: AccessEvent, store: MemoryStore) returns (stored: Option<Document>)
    requires KeyedById(store.documents)
    modifies store
    ensures KeyedById(store.documents)
    ensures stored.Some? <==> ValidAccess(e)
    ensures stored.Some? ==> Indexes(AccessValues(e), stored.value) && IndexedAsAccess(e, stored.value)
    ensures stored.Some? ==> stored.value.documentId == TrimSpace(e.eventId)
    ensures store.documents == if stored.Some? then old(store.documents)[stored.value.documentId := stored.value]
                               else old(store.documents)
  {
    hide ValidDocument, TermsOf, Settled, AccessValues, ValidAccess, Rejected, NormalizesTo, Accepts;
    var document := BuildAccessDocument(e);
    if document.None? {
      return None;
    }
    NeverRejected(AccessValues(e), document.value);
    stored := store.Append(document.value);
    BuiltIsStored(AccessValues(e), document.value, stored.value);
    AcceptedAsIs(document.value, stored.value);
    IdOfStored(document.value, stored.value);
  }

  /** The query text joins some indexed values and has a term. */
  ghost predicate Asks(filter: Query, values: set<string>, chosen: seq<string>) {
    && (forall v | v in chosen :: v in values) && NormalizeTerms(chosen) != []
    && (filter.queryText == JoinSpace(chosen) || filter.queryText == TrimSpace(JoinSpace(chosen)))
  }

  /** An answer holds the document, with every term of the query matched. */
  ghost predicate Finds(hits: seq<Hit>, stored: Document, chosen: seq<string>) {
    exists h | h in hits ::
      h.document == stored && h.matchedTerms == NormalizeTerms(chosen)
          && h.score >= 2.0 * |NormalizeTerms(chosen)| as real + 1.0
  }

  /**
   * A stored document that passes the filter is in every answer, that the limit
   * did not cut, to a query made of any of its indexed values.
   */
  lemma IndexedIsFound(filter: Query, values: set<string>, chosen: seq<string>, stored: Document,
                       docs: map<string, Document>, hits: seq<Hit>)
    requires Indexes(values, stored) && Asks(filter, values, chosen)
    requires Lookup(docs, stored.documentId) == Some(stored) && KeyedById(docs)
    requires IsRanking(filter, docs, hits) && Uncut(filter, hits)
    ensures Finds(hits, stored, chosen)
  {
    hide NormalizeTerms, TermsOf, NormalizesTo, ValidDocument, IsHit, HitSet, IsRanking, Score, JoinSpace, TrimSpace;
    JoinedValuesAreFound(values, stored, stored, chosen, filter);
    var h := HitOf(filter, stored);
    UncutHits(filter, docs, hits);
    HitOfDocument(filter, stored);
    HitSetMember(filter, docs, h);
    assert h in hits;
  }

  /** In the memory store, right after indexing, and as long as the id is not indexed again. */
  lemma MemoryFinds(filter: Query, values: set<string>, chosen: seq<string>, stored: Document,
                    documents: map<string, Document>, hits: seq<Hit>)
    requires Indexes(values, stored) && Asks(filter, values, chosen) && Matches(filter, stored)
    requires KeyedById(documents) && Lookup(documents, stored.documentId) == Some(stored)
    requires IsRanking(filter, Filtered(filter, documents), hits) && Uncut(filter, hits)
    ensures Finds(hits, stored, chosen)
  {
    hide Indexes, Asks, Matches, IsRanking, Finds;
    FilteredIsKeyed(filter, documents);
    IndexedIsFound(filter, values, chosen, stored, Filtered(filter, documents), hits);
  }

  lemma {:induction false} FileDocumentsAreLogged(filter: Query, log: seq<Document>, id: string)
    ensures var d := Lookup(FileDocuments(filter, log), id); d.Some? ==> d.value in log && d.value.documentId == id
  {
    hide Matches;
    if log != [] {
      FileDocumentsAreLogged(filter, log[..|log| - 1], id);
      assert log == log[..|log| - 1] + [log[|log| - 1]];
    }
  }

  /** In the file store, after appending to any log whose versions of the document are older. */
  lemma FileFinds(filter: Query, values: set<string>, chosen: seq<string>, stored: Document,
                  log: seq<Document>, hits: seq<Hit>)
    requires Indexes(values, stored) && Asks(filter, values, chosen) && Matches(filter, stored)
    requires forall d | d in log && d.documentId == stored.documentId :: Newer(d, stored)
    requires IsRanking(filter, FileDocuments(filter, log + [stored]), hits) && Uncut(filter, hits)
    ensures Finds(hits, stored, chosen)
  {
    hide Indexes, Asks, Matches, IsRanking, Finds;
    var longer := log + [stored];
    assert longer[..|log|] == log;
    FileDocumentsAreLogged(filter, log, stored.documentId);
    IndexedIsFound(filter, values, chosen, stored, FileDocuments(filter, longer), hits);
  }

  // ---------------------------------------------------------------- the event behind a document

  /** Every text that is asked for is the one there is, up to case and outer spaces. */
  predicate Fits(asked: seq<(string, string)>) {
    forall pair | pair in asked :: TrimSpace(pair.0) == "" || Lower(TrimSpace(pair.0)) == Lower(TrimSpace(pair.1))
  }

  predicate InTime(filter: Query, occurredAt: int) {
    && (filter.from == None || filter.from.value <= occurredAt)
    && (filter.to == None || occurredAt <= filter.to.value)
  }

  /** Pairs whose second parts were trimmed fit like the pairs themselves. */
  lemma FitsTrimmed(a: seq<(string, string)>, b: seq<(string, string)>)
    requires |a| == |b| && forall k: nat | k < |a| :: a[k] == (b[k].0, TrimSpace(b[k].1))
    ensures Fits(a) <==> Fits(b)
  {
    hide TrimSpace, Lower;
    forall k: nat | k < |a|
      ensures TrimSpace(a[k].1) == TrimSpace(b[k].1)
    {
      AllTrimmed(b[k].1);
    }
    assert forall k: nat | k < |a| :: a[k] in a && b[k] in b;
  }

  /** A filter selects an indexed session event by the event's own fields and time. */
  lemma SessionIsSelected(filter: Query, e: SessionEvent, stored: Document)
    requires IndexedAsSession(e, stored)
    ensures Matches(filter, stored) <==>
              && Fits([(filter.tenantId, e.tenantId), (filter.subscriberId, e.subscriberId),
                       (filter.sessionId, e.sessionId), (filter.requestId, ""), (filter.status, e.status),
                       (filter.outcome, ""), (filter.nasIp, e.nasIp), (filter.clientIp, e.clientIp)])
              && InTime(filter, e.occurredAt)
  {
    hide TrimSpace, Lower, NormalizeTerms, TrimsTo, Fits, Matches, Sort;
    SelectedExactly(filter, stored);
    SelectedFits(filter, stored);
    FitsTrimmed(Pairs(filter, stored),
                [(filter.tenantId, e.tenantId), (filter.subscriberId, e.subscriberId),
                 (filter.sessionId, e.sessionId), (filter.requestId, ""), (filter.status, e.status),
                 (filter.outcome, ""), (filter.nasIp, e.nasIp), (filter.clientIp, e.clientIp)]) by {
      NoText();
    }
  }

  lemma AccessIsSelected(filter: Query, e: AccessEvent, stored: Document)
    requires IndexedAsAccess(e, stored)
    ensures Matches(filter, stored) <==>
              && Fits([(filter.tenantId, e.tenantId), (filter.subscriberId, e.subscriberId),
                       (filter.sessionId, e.sessionId), (filter.requestId, e.requestId), (filter.status, ""),
                       (filter.outcome, e.outcome), (filter.nasIp, e.nasIp), (filter.clientIp, e.clientIp)])
              && InTime(filter, e.occurredAt)
  {
    hide TrimSpace, Lower, NormalizeTerms, TrimsTo, Fits, Matches, Sort;
    SelectedExactly(filter, stored);
    SelectedFits(filter, stored);
    FitsTrimmed(Pairs(filter, stored),
                [(filter.tenantId, e.tenantId), (filter.subscriberId, e.subscriberId),
                 (filter.sessionId, e.sessionId), (filter.requestId, e.requestId), (filter.status, ""),
                 (filter.outcome, e.outcome), (filter.nasIp, e.nasIp), (filter.clientIp, e.clientIp)]) by {
      NoText();
    }
  }

  lemma NoText()
    ensures TrimSpace("") == ""
  {
  }

  function Pairs(filter: Query, d: Document): seq<(string, string)> {
    [(filter.tenantId, d.tenantId), (filter.subscriberId, d.subscriberId), (filter.sessionId, d.sessionId),
     (filter.requestId, d.requestId), (filter.status, d.status), (filter.outcome, d.outcome),
     (filter.nasIp, d.nasIp), (filter.clientIp, d.clientIp)]
  }

  lemma SelectedFits(filter: Query, d: Document)
    ensures Selected(filter, d) <==> Fits(Pairs(filter, d)) && InTime(filter, d.occurredAt)
  {
    hide TrimSpace, Lower;
  }

  /** The title says what happened, to whom, in which session and where. */
  lemma SessionTitleMeaning(e: SessionEvent)
    requires ValidSession(e)
    ensures var word := if e.status == "interim_update" then "interim update" else e.status;
            SessionTitle(e) == "network session " + word + " for subscriber " + e.subscriberId
                               + (" in session " + e.sessionId) + (if e.nasIp == "" then "" else " on NAS " + e.nasIp)
  {
    assert UnderscoresToSpaces("interim_update") == "interim update";
    assert UnderscoresToSpaces("start") == "start" && UnderscoresToSpaces("stop") == "stop";
    assert Blank("");
  }

  lemma AccessTitleMeaning(e: AccessEvent)
    requires ValidAccess(e)
    ensures AccessTitle(e) == "network access " + e.outcome + " for subscriber " + e.subscriberId
                              + (" on request " + e.requestId) + (if e.nasIp == "" then "" else " on NAS " + e.nasIp)
  {
    assert Blank("");
  }

  /** Everything a session event can be found by. */
  predicate SessionHas(e: SessionEvent, value: string) {
    || value in [e.source, e.eventType, e.tenantId, e.subscriberId, e.sessionId, e.status, e.nasIp, e.clientIp]
    || value == e.semanticText || value == SessionTitle(e) || value in e.tags || value in e.attributes
    || exists key | key in e.attributes :: value == TrimSpace(e.attributes[key])
  }

  predicate AccessHas(e: AccessEvent, value: string) {
    || value in [e.source, e.eventType, e.tenantId, e.subscriberId, e.sessionId, e.requestId, e.outcome, e.nasIp,
                 e.clientIp, e.policyName, e.rejectReason]
    || value == e.semanticText || value == AccessTitle(e) || value in e.tags || value in e.attributes
    || exists key | key in e.attributes :: value == TrimSpace(e.attributes[key])
  }

  lemma TermsOfValues(values: set<string>, stored: Document, t: string)
    requires TermsOf(values, stored.terms)
    ensures t in stored.terms <==> exists v :: v in values && IsTerm(Lower(v), t)
  {
    var listed :| Members(listed) == values && stored.terms == NormalizeTerms(listed);
    NormalizeTermsSpec(listed);
    assert forall v :: v in listed <==> v in values;
  }

  /** The stored terms are the terms of exactly these values. */
  lemma SessionTermsExactly(e: SessionEvent, stored: Document, t: string)
    requires Indexes(SessionValues(e), stored)
    ensures t in stored.terms <==> exists v :: SessionHas(e, v) && IsTerm(Lower(v), t)
  {
    hide IsTerm, Lower, TrimSpace, SessionTitle, Settled, TermsOf;
    TermsOfValues(SessionValues(e), stored, t);
    forall v
      ensures v in SessionValues(e) <==> SessionHas(e, v)
    {
      assert v in Members(SessionTexts(e)) <==> v in SessionTexts(e);
    }
  }

  lemma AccessTermsExactly(e: AccessEvent, stored: Document, t: string)
    requires Indexes(AccessValues(e), stored)
    ensures t in stored.terms <==> exists v :: AccessHas(e, v) && IsTerm(Lower(v), t)
  {
    hide IsTerm, Lower, TrimSpace, AccessTitle, Settled, TermsOf;
    TermsOfValues(AccessValues(e), stored, t);
    forall v
      ensures v in AccessValues(e) <==> AccessHas(e, v)
    {
      assert v in Members(AccessTexts(e)) <==> v in AccessTexts(e);
    }
  }

  /** What a reader of an answer sees of a session event. */
  lemma SessionIsShown(e: SessionEvent, stored: Document)
    requires IndexedAsSession(e, stored)
    ensures stored.documentId == TrimSpace(e.eventId) && stored.sourceEventId == TrimSpace(e.sourceEventId)
    ensures stored.source == TrimSpace(e.source) && stored.sourceKey == TrimSpace(e.sourceKey)
    ensures stored.eventType == TrimSpace(e.eventType) && stored.occurredAt == e.occurredAt
    ensures stored.ingestedAt == e.ingestedAt && stored.entityType == "network_session"
    ensures stored.schemaVersion == "sil.retrieval.document.v1" && multiset(stored.tags) == multiset(e.tags)
    ensures stored.title == TrimSpace(SessionTitle(e)) && stored.content == TrimSpace(e.semanticText)
  {
    hide TrimSpace, NormalizeTerms, Sort, SessionTitle, TrimsTo;
    FixedTexts();
  }

  lemma AccessIsShown(e: AccessEvent, stored: Document)
    requires IndexedAsAccess(e, stored)
    ensures stored.documentId == TrimSpace(e.eventId) && stored.sourceEventId == TrimSpace(e.sourceEventId)
    ensures stored.source == TrimSpace(e.source) && stored.sourceKey == TrimSpace(e.sourceKey)
    ensures stored.eventType == TrimSpace(e.eventType) && stored.occurredAt == e.occurredAt
    ensures stored.ingestedAt == e.ingestedAt && stored.entityType == "network_access"
    ensures stored.schemaVersion == "sil.retrieval.document.v1" && multiset(stored.tags) == multiset(e.tags)
    ensures stored.title == TrimSpace(AccessTitle(e)) && stored.content == TrimSpace(e.semanticText)
    ensures stored.policyName == TrimSpace(e.policyName) && stored.rejectReason == TrimSpace(e.rejectReason)
  {
    hide TrimSpace, NormalizeTerms, Sort, AccessTitle, TrimsTo;
    FixedTexts();
  }

  lemma FixedTexts()
    ensures TrimSpace("network_session") == "network_session" && TrimSpace("network_access") == "network_access"
    ensures TrimSpace("sil.retrieval.document.v1") == "sil.retrieval.document.v1"
  {
    TrimBare(IsSpace, "network_session");
    TrimBare(IsSpace, "network_access");
    TrimBare(IsSpace, "sil.retrieval.document.v1");
  }
}
