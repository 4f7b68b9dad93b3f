/**
 * What Append keeps of a document and what Search answers
 * (internal/storage/metadata/retrieval/store.go), in terms of the texts, the
 * terms and the times themselves.
 */
module Answers {
  import opened Wrappers
  import opened Sorting
  import opened Text
  import opened Times
  import opened Terms
  import opened Retrieval
  import opened RetrievalStores
  import opened Versions

  // ---------------------------------------------------------------- what a search selects

  /** Every field that the filter names has the wanted text, up to case and outer spaces, and the time is within. */
  predicate Selected(filter: Query, d: Document) {
    && (forall pair | pair in [(filter.tenantId, d.tenantId), (filter.subscriberId, d.subscriberId),
                               (filter.sessionId, d.sessionId), (filter.requestId, d.requestId),
                               (filter.status, d.status), (filter.outcome, d.outcome),
                               (filter.nasIp, d.nasIp), (filter.clientIp, d.clientIp)] ::
          TrimSpace(pair.0) == "" || Lower(TrimSpace(pair.0)) == Lower(TrimSpace(pair.1)))
    && (filter.from == None || filter.from.value <= d.occurredAt)
    && (filter.to == None || d.occurredAt <= filter.to.value)
  }

  lemma SelectedExactly(filter: Query, d: Document)
    ensures Matches(filter, d) <==> Selected(filter, d)
  {
    hide TrimSpace, Lower;
    var pairs := [(filter.tenantId, d.tenantId), (filter.subscriberId, d.subscriberId),
                  (filter.sessionId, d.sessionId), (filter.requestId, d.requestId),
                  (filter.status, d.status), (filter.outcome, d.outcome),
                  (filter.nasIp, d.nasIp), (filter.clientIp, d.clientIp)];
    assert pairs[0] in pairs && pairs[1] in pairs && pairs[2] in pairs && pairs[3] in pairs;
    assert pairs[4] in pairs && pairs[5] in pairs && pairs[6] in pairs && pairs[7] in pairs;
  }

  // ---------------------------------------------------------------- what a hit is worth

  /** The terms that a document has in common with the query. */
  ghost function Shared(filter: Query, d: Document): set<string> {
    set t | t in d.terms && IsTermOf([filter.queryText], t)
  }

  /** The query, as a whole, occurs in the title or the content, whatever the case. */
  predicate HasPhrase(filter: Query, d: Document) {
    var text, query := Lower(d.title + " " + d.content), Lower(TrimSpace(filter.queryText));
    exists i: nat | i <= |text| :: OccursAt(text, query, i)
  }

  ghost predicate HasAllTerms(filter: Query, d: Document) {
    forall t | IsTermOf([filter.queryText], t) :: t in d.terms
  }

  /** Two a shared term, one and a half for the phrase, one for having every term. */
  ghost predicate WorthOf(filter: Query, h: Hit) {
    && h.score == 2.0 * |Shared(filter, h.document)| as real
                  + (if HasPhrase(filter, h.document) then 1.5 else 0.0)
                  + (if HasAllTerms(filter, h.document) then 1.0 else 0.0)
    && StrictlySorted(h.matchedTerms) && forall t :: t in h.matchedTerms <==> t in Shared(filter, h.document)
  }

  lemma {:induction false} StrictSize(terms: seq<string>)
    requires StrictlySorted(terms)
    ensures |Members(terms)| == |terms|
  {
    if terms != [] {
      var n := |terms| - 1;
      StrictSize(terms[..n]);
      assert Members(terms) == Members(terms[..n]) + {terms[n]};
    }
  }

  lemma SettledTerms(d: Document)
    requires Settled(d)
    ensures TermSet(d) == Members(d.terms)
  {
    NormalizeTermsSpec(d.terms);
    forall t | t in d.terms
      ensures Lower(TrimSpace(t)) == t
    {
      TermOfNormalized(d.terms, t, t);
    }
  }

  lemma MatchedIsShared(filter: Query, d: Document)
    requires Settled(d)
    ensures var matched := MatchedTerms(NormalizeTerms([filter.queryText]), TermSet(d));
            && StrictlySorted(matched) && |matched| == |Shared(filter, d)|
            && (forall t :: t in matched <==> t in Shared(filter, d))
            && (|matched| == |NormalizeTerms([filter.queryText])| <==> HasAllTerms(filter, d))
  {
    hide Settled, IsTermOf, NormalizeTerms, TermSet;
    var queryTerms := NormalizeTerms([filter.queryText]);
    SettledTerms(d);
    NormalizeTermsSpec([filter.queryText]);
    MatchedMembers(queryTerms, TermSet(d));
    MatchedSorted(queryTerms, TermSet(d));
    var matched := MatchedTerms(queryTerms, TermSet(d));
    StrictSize(matched);
    assert Members(matched) == Shared(filter, d);
  }

  lemma PhraseMeaning(filter: Query, d: Document)
    requires NormalizeTerms([filter.queryText]) != []
    ensures PhraseMatches(TrimSpace(filter.queryText), d) <==> HasPhrase(filter, d)
  {
    hide NormalizeTerms, TrimSpace, Contains;
    AllTrimmed(filter.queryText);
    var text, query := Lower(d.title + " " + d.content), Lower(TrimSpace(filter.queryText));
    ContainsMeaning(text, query);
    TermsNeedText(filter.queryText);
  }

  lemma TermsNeedText(text: string)
    requires NormalizeTerms([text]) != []
    ensures TrimSpace(text) != ""
  {
    hide NormalizeTerms;
    SomeTermExactly([text]);
    BlankTrims(text);
  }

  lemma HitMeaning(filter: Query, d: Document)
    requires Settled(d)
    ensures IsHit(filter, d) <==> Shared(filter, d) != {}
    ensures IsHit(filter, d) ==> WorthOf(filter, HitOf(filter, d))
  {
    hide Settled, IsTermOf, NormalizeTerms, TermSet, Shared, HasPhrase, HasAllTerms, PhraseMatches, TrimSpace;
    MatchedIsShared(filter, d);
    if IsHit(filter, d) {
      PhraseMeaning(filter, d);
    }
  }

  // ---------------------------------------------------------------- what a search answers

  /** Best score first, then latest occurrence, then latest ingestion. */
  predicate BestFirst(hits: seq<Hit>) {
    forall i: nat, j: nat | i < j < |hits| ::
      && hits[i].score >= hits[j].score
      && (hits[i].score == hits[j].score ==> hits[i].document.occurredAt >= hits[j].document.occurredAt)
      && (hits[i].score == hits[j].score && hits[i].document.occurredAt == hits[j].document.occurredAt ==>
            hits[i].document.ingestedAt >= hits[j].document.ingestedAt)
  }

  ghost predicate HoldsSettled(docs: map<string, Document>) {
    KeyedById(docs) && forall id | id in docs :: Settled(docs[id])
  }

  /** hits answer over docs: the hits are those with a shared term, ranked; only the limit leaves one out. */
  ghost predicate AnswersOver(filter: Query, docs: map<string, Document>, hits: seq<Hit>) {
    && BestFirst(hits) && (filter.limit > 0 ==> |hits| <= filter.limit)
    && (forall h | h in hits ::
          && Lookup(docs, h.document.documentId) == Some(h.document)
          && Shared(filter, h.document) != {} && WorthOf(filter, h))
    && (forall id | id in docs && Shared(filter, docs[id]) != {} ::
          || (exists h | h in hits :: h.document == docs[id])
          || (|hits| == filter.limit > 0 && forall h | h in hits :: h.score >= HitOf(filter, docs[id]).score))
  }

  lemma RankingMeaning(filter: Query, docs: map<string, Document>, hits: seq<Hit>)
    requires HoldsSettled(docs) && IsRanking(filter, docs, hits)
    ensures AnswersOver(filter, docs, hits)
  {
    hide IsRanking, IsHit, HitOf, WorthOf, Shared, Settled, HitSet;
    RankingKeepsBest(filter, docs, hits);
    WithinLimit(filter, docs, hits);
    forall h | h in hits
      ensures Lookup(docs, h.document.documentId) == Some(h.document)
      ensures Shared(filter, h.document) != {} && WorthOf(filter, h)
    {
      HitSetMember(filter, docs, h);
      HitMeaning(filter, h.document);
    }
    forall id | id in docs && Shared(filter, docs[id]) != {}
      ensures || (exists h | h in hits :: h.document == docs[id])
              || (|hits| == filter.limit > 0 && forall h | h in hits :: h.score >= HitOf(filter, docs[id]).score)
    {
      HitMeaning(filter, docs[id]);
      HitOfDocument(filter, docs[id]);
      HitSetMember(filter, docs, HitOf(filter, docs[id]));
    }
  }

  lemma WithinLimit(filter: Query, docs: map<string, Document>, hits: seq<Hit>)
    requires IsRanking(filter, docs, hits)
    ensures filter.limit > 0 ==> |hits| <= filter.limit
  {
    hide HitSet, HitLe;
  }

  /**
   * Every answer of a file search holds selected documents only, each in the
   * first of its greatest selected versions, with a term of the query; and
   * every such version, unless the limit cuts.
   */
  lemma FileAnswers(filter: Query, log: seq<Document>, hits: seq<Hit>)
    requires AllSettled(log) && IsRanking(filter, FileDocuments(filter, log), hits)
    ensures AnswersOver(filter, FileDocuments(filter, log), hits)
    ensures forall h | h in hits ::
              Selected(filter, h.document)
              && exists i: nat :: IsFirstGreatest(filter, log, h.document.documentId, i) && log[i] == h.document
    ensures forall i: nat | i < |log| && IsFirstGreatest(filter, log, log[i].documentId, i)
                            && Shared(filter, log[i]) != {} && Uncut(filter, hits) ::
              exists h | h in hits :: h.document == log[i]
  {
    hide Settled, FileDocuments, IsRanking, Matches, Selected, WorthOf, Shared, HitOf, BestFirst;
    var docs := FileDocuments(filter, log);
    forall id | id in docs
      ensures Settled(docs[id])
    {
      var i := FileKeepsFirstGreatest(filter, log, id);
      assert Lookup(docs, id) == Some(docs[id]) && log[i] in log;
    }
    RankingMeaning(filter, docs, hits);
    forall h | h in hits
      ensures Selected(filter, h.document)
      ensures exists i: nat :: IsFirstGreatest(filter, log, h.document.documentId, i) && log[i] == h.document
    {
      var i := FileKeepsFirstGreatest(filter, log, h.document.documentId);
      SelectedExactly(filter, h.document);
    }
    forall i: nat | i < |log| && IsFirstGreatest(filter, log, log[i].documentId, i)
                    && Shared(filter, log[i]) != {} && Uncut(filter, hits)
      ensures exists h | h in hits :: h.document == log[i]
    {
      FileKeepsExactly(filter, log, log[i].documentId, i);
      assert Lookup(docs, log[i].documentId) == Some(log[i]);
    }
  }

  /** The same of the memory store and the documents it holds. */
  lemma MemoryAnswers(filter: Query, documents: map<string, Document>, hits: seq<Hit>)
    requires HoldsSettled(documents) && IsRanking(filter, Filtered(filter, documents), hits)
    ensures AnswersOver(filter, Filtered(filter, documents), hits)
    ensures forall h | h in hits ::
              Selected(filter, h.document) && Lookup(documents, h.document.documentId) == Some(h.document)
    ensures forall id | id in documents && Selected(filter, documents[id])
                        && Shared(filter, documents[id]) != {} && Uncut(filter, hits) ::
              exists h | h in hits :: h.document == documents[id]
  {
    hide Settled, IsRanking, Matches, Selected, WorthOf, Shared, HitOf, BestFirst;
    RankingMeaning(filter, Filtered(filter, documents), hits);
    forall d: Document {
      SelectedExactly(filter, d);
    }
    forall id | id in documents && Selected(filter, documents[id])
                && Shared(filter, documents[id]) != {} && Uncut(filter, hits)
      ensures exists h | h in hits :: h.document == documents[id]
    {
      assert Filtered(filter, documents)[id] == documents[id];
    }
  }

  // ---------------------------------------------------------------- what Append keeps and refuses

  /** Position by position, the texts of one document are those of another without outer spaces. */
  predicate TextsTrimmed(d: Document, stored: Document) {
    |Texts(stored)| == |Texts(d)| && forall k: nat | k < |Texts(d)| :: Texts(stored)[k] == TrimSpace(Texts(d)[k])
  }

  /**
   * A stored document has the texts without outer spaces, the same times, the
   * tags in order, the terms of the terms, and the attributes without outer
   * spaces, blank keys left out.
   */
  lemma StoredMeaning(d: Document, stored: Document)
    requires NormalizesTo(d, stored)
    ensures TextsTrimmed(d, stored)
    ensures stored.occurredAt == d.occurredAt && stored.ingestedAt == d.ingestedAt
    ensures multiset(stored.tags) == multiset(d.tags)
    ensures forall i: nat, j: nat | i < j < |stored.tags| :: StringLe(stored.tags[i], stored.tags[j])
    ensures StrictlySorted(stored.terms) && forall t :: t in stored.terms <==> IsTermOf(d.terms, t)
    ensures forall k | k in d.attributes && TrimSpace(k) != "" :: TrimSpace(k) in stored.attributes
    ensures forall k | k in stored.attributes ::
              k != "" && exists raw :: raw in d.attributes && TrimSpace(raw) == k
                                       && stored.attributes[k] == TrimSpace(d.attributes[raw])
  {
    hide TrimSpace, NormalizeTerms, Sort, IsTermOf, Texts, NormalizesTo;
    StoredTexts(d, stored);
    StoredLists(d, stored);
    TermOrder();
    SortIsSort(TermLe, d.tags);
    NormalizeTermsSpec(d.terms);
  }

  lemma StoredTexts(d: Document, stored: Document)
    requires NormalizesTo(d, stored)
    ensures TextsTrimmed(d, stored)
  {
    hide TrimSpace, NormalizeTerms, Sort, TrimsTo;
  }

  lemma StoredLists(d: Document, stored: Document)
    requires NormalizesTo(d, stored)
    ensures stored.occurredAt == d.occurredAt && stored.ingestedAt == d.ingestedAt
    ensures stored.tags == Sort(TermLe, d.tags) && stored.terms == NormalizeTerms(d.terms)
    ensures CleansTo(TrimSpace, d.attributes, stored.attributes)
  {
    hide TrimSpace, NormalizeTerms, Sort, CleansTo;
  }

  /** The texts that every document needs. */
  function Needed(d: Document): seq<string> {
    [d.documentId, d.schemaVersion, d.tenantId, d.source, d.sourceEventId, d.sourceKey, d.eventType, d.title, d.content,
     d.subscriberId]
  }

  /** What a document needs for its type. */
  predicate TypeIsComplete(d: Document) {
    || (TrimSpace(d.entityType) == "network_session" && TrimSpace(d.sessionId) != "" && TrimSpace(d.status) != "")
    || (TrimSpace(d.entityType) == "network_access" && TrimSpace(d.requestId) != "" && TrimSpace(d.outcome) != "")
  }

  predicate Complete(d: Document) {
    && HasTexts(d)
    && d.occurredAt != 0 && d.ingestedAt != 0 && TypeIsComplete(d)
    && exists term | term in d.terms :: HasTermChar(term)
  }

  predicate HasTexts(d: Document) {
    forall text | text in Needed(d) :: TrimSpace(text) != ""
  }

  lemma ValidExactly(d: Document)
    ensures ValidDocument(d) <==>
              HasTexts(d) && d.occurredAt != 0 && d.ingestedAt != 0 && TypeIsComplete(d) && d.terms != []
  {
    hide TrimSpace, Blank;
    var needed := Needed(d);
    forall k: nat | k < |needed|
      ensures Blank(needed[k]) <==> TrimSpace(needed[k]) == ""
    {
      BlankTrims(needed[k]);
    }
    BlankTrims(d.entityType);
    BlankTrims(d.sessionId);
    BlankTrims(d.status);
    BlankTrims(d.requestId);
    BlankTrims(d.outcome);
    assert Blank(needed[0]) <==> TrimSpace(needed[0]) == "";
    assert HasTexts(d) <==> forall k: nat | k < 10 :: TrimSpace(needed[k]) != "";
    assert HasTexts(d) <==>
             && !Blank(needed[0]) && !Blank(needed[1]) && !Blank(needed[2]) && !Blank(needed[3]) && !Blank(needed[4])
             && !Blank(needed[5]) && !Blank(needed[6]) && !Blank(needed[7]) && !Blank(needed[8]) && !Blank(needed[9]);
  }

  lemma StoredNeeded(d: Document, stored: Document)
    requires NormalizesTo(d, stored)
    ensures |Needed(stored)| == |Needed(d)| == 10
    ensures forall k: nat | k < 10 :: Needed(stored)[k] == TrimSpace(Needed(d)[k])
    ensures stored.entityType == TrimSpace(d.entityType) && stored.sessionId == TrimSpace(d.sessionId)
    ensures stored.status == TrimSpace(d.status) && stored.requestId == TrimSpace(d.requestId)
    ensures stored.outcome == TrimSpace(d.outcome)
  {
    hide TrimSpace, NormalizeTerms, Sort, TrimsTo;
  }

  /** Trimming the texts changes nothing that a document needs. */
  lemma StoredNeeds(d: Document, stored: Document)
    requires NormalizesTo(d, stored)
    ensures HasTexts(stored) <==> HasTexts(d)
    ensures TypeIsComplete(stored) <==> TypeIsComplete(d)
  {
    hide TrimSpace, NormalizesTo, Needed;
    StoredNeeded(d, stored);
    forall k: nat | k < 10
      ensures TrimSpace(Needed(stored)[k]) == TrimSpace(Needed(d)[k])
    {
      AllTrimmed(Needed(d)[k]);
    }
    AllTrimmed(d.entityType);
    AllTrimmed(d.sessionId);
    AllTrimmed(d.status);
    AllTrimmed(d.requestId);
    AllTrimmed(d.outcome);
  }

  lemma StoredIsComplete(d: Document, stored: Document)
    requires NormalizesTo(d, stored)
    ensures ValidDocument(stored) <==> Complete(d)
  {
    hide NormalizeTerms, TrimSpace, TypeIsComplete, HasTermChar, ValidDocument, NormalizesTo;
    SomeTermExactly(d.terms);
    StoredLists(d, stored);
    StoredNeeds(d, stored);
    ValidExactly(stored);
  }

  /** Some value whose key trims to this one. */
  ghost function ValueUnder(before: map<string, string>, key: string): (value: string)
    requires exists raw :: raw in before && TrimSpace(raw) == key
    ensures exists raw :: raw in before && TrimSpace(raw) == key && value == TrimSpace(before[raw])
  {
    var raw :| raw in before && TrimSpace(raw) == key;
    TrimSpace(before[raw])
  }

  ghost function TrimmedAttributes(before: map<string, string>): map<string, string> {
    map key | key in (set k | k in before && TrimSpace(k) != "" :: TrimSpace(k)) :: ValueUnder(before, key)
  }

  lemma SomeNormalization(d: Document)
    ensures NormalizesTo(d, NormalizeFields(d).(attributes := TrimmedAttributes(d.attributes)))
  {
    hide TrimSpace, NormalizeTerms;
  }

  /**
   * Append refuses a document exactly when a needed text is blank, a time is
   * not set, its type is unknown or incomplete, or no term has a character that
   * makes one.
   */
  lemma RejectedExactly(d: Document)
    ensures Rejected(d) <==>
              || (exists text | text in Needed(d) :: TrimSpace(text) == "")
              || d.occurredAt == 0 || d.ingestedAt == 0 || !TypeIsComplete(d)
              || (forall term | term in d.terms :: !HasTermChar(term))
  {
    hide TrimSpace, ValidDocument, NormalizesTo, HasTermChar, TypeIsComplete;
    forall stored | NormalizesTo(d, stored)
      ensures ValidDocument(stored) <==> Complete(d)
    {
      StoredIsComplete(d, stored);
    }
    SomeNormalization(d);
  }
}
