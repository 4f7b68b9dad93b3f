/**
 * The document builders of internal/services/index/service.go, and the
 * completeness of the index: what was built into a document can be found.
 */
module Index {
  import opened Wrappers
  import opened Sorting
  import opened Text
  import opened Terms
  import opened Events
  import opened Retrieval

  const SCHEMA_VERSION := "sil.retrieval.document.v1"

  function UnderscoresToSpaces(s: string): string {
    seq(|s|, (i: nat) requires i < |s| => if s[i] == '_' then ' ' else s[i])
  }

  function SessionTitle(e: SessionEvent): string {
    "network session " + UnderscoresToSpaces(e.status) + " for subscriber " + e.subscriberId
    + (if e.sessionId != "" then " in session " + e.sessionId else "")
    + (if e.nasIp != "" then " on NAS " + e.nasIp else "")
  }

  function AccessTitle(e: AccessEvent): string {
    "network access " + e.outcome + " for subscriber " + e.subscriberId
    + (if e.requestId != "" then " on request " + e.requestId else "")
    + (if e.nasIp != "" then " on NAS " + e.nasIp else "")
  }

  function TrimValues(attributes: map<string, string>): map<string, string> {
    map k | k in attributes :: TrimSpace(attributes[k])
  }

  ghost function Flatten(attributes: map<string, string>): set<string> {
    attributes.Keys + (set k | k in attributes :: TrimSpace(attributes[k]))
  }

  function SessionTexts(e: SessionEvent): seq<string> {
    [SessionTitle(e), e.semanticText, e.source, e.eventType, e.tenantId, e.subscriberId, e.sessionId,
     e.status, e.nasIp, e.clientIp]
  }

  function AccessTexts(e: AccessEvent): seq<string> {
    [AccessTitle(e), e.semanticText, e.source, e.eventType, e.tenantId, e.subscriberId, e.sessionId,
     e.requestId, e.outcome, e.nasIp, e.clientIp, e.policyName, e.rejectReason]
  }

  /** The field values that become terms of a document: texts, tags, attribute keys and values. */
  ghost function IndexedValues(texts: seq<string>, tags: seq<string>, attributes: map<string, string>): set<string> {
    Members(texts) + Members(tags) + Flatten(attributes)
  }

  ghost function SessionValues(e: SessionEvent): set<string> {
    IndexedValues(SessionTexts(e), e.tags, e.attributes)
  }

  ghost function AccessValues(e: AccessEvent): set<string> {
    IndexedValues(AccessTexts(e), e.tags, e.attributes)
  }

  /** The terms of a document are those of exactly these values. */
  ghost predicate TermsOf(values: set<string>, terms: seq<string>) {
    exists listed: seq<string> :: Members(listed) == values && terms == NormalizeTerms(listed)
  }

  function SessionFields(e: SessionEvent, terms: seq<string>): Document {
    Document(e.eventId, SCHEMA_VERSION, e.tenantId, e.source, e.sourceEventId, e.sourceKey,
             ENTITY_SESSION, e.eventType, e.occurredAt, e.ingestedAt, SessionTitle(e), e.semanticText,
             e.subscriberId, e.sessionId, "", e.status, "", e.nasIp, e.clientIp, "", "",
             e.tags, terms, TrimValues(e.attributes))
  }

  function AccessFields(e: AccessEvent, terms: seq<string>): Document {
    Document(e.eventId, SCHEMA_VERSION, e.tenantId, e.source, e.sourceEventId, e.sourceKey,
             ENTITY_ACCESS, e.eventType, e.occurredAt, e.ingestedAt, AccessTitle(e), e.semanticText,
             e.subscriberId, e.sessionId, e.requestId, "", e.outcome, e.nasIp, e.clientIp, e.policyName,
             e.rejectReason, e.tags, terms, TrimValues(e.attributes))
  }

  // ---------------------------------------------------------------- the builders

  /** What the loop has put into its results after the keys done. */
  ghost predicate Cloned(values: map<string, string>, done: seq<string>,
                         attributes: map<string, string>, terms: seq<string>) {
    && (forall k | k in done :: k in values)
    && attributes == (map k | k in done && k in values :: TrimSpace(values[k]))
    && Members(terms) == Members(done) + (set k | k in done && k in values :: TrimSpace(values[k]))
  }

  lemma ClonedStep(values: map<string, string>, done: seq<string>, key: string,
                   attributes: map<string, string>, terms: seq<string>)
    requires Cloned(values, done, attributes, terms) && key in values
    ensures Cloned(values, done + [key], attributes[key := TrimSpace(values[key])],
            terms + [key, TrimSpace(values[key])])
  {
    var value := TrimSpace(values[key]);
    assert Members(terms + [key, value]) == Members(terms) + {key, value};
    assert Members(done + [key]) == Members(done) + {key};
  }

  lemma ClonedAll(values: map<string, string>, keys: seq<string>, attributes: map<string, string>, terms: seq<string>)
    requires Cloned(values, keys, attributes, terms) && multiset(keys) == multiset(values.Keys)
    ensures attributes == TrimValues(values) && Members(terms) == Flatten(values)
  {
    assert forall k :: k in keys <==> k in multiset(keys);
    assert Members(keys) == values.Keys;
  }

  /** The loop over the sorted attribute keys, shared by both builders. */
  method CloneAttributes(values: map<string, string>) returns (attributes: map<string, string>, terms: seq<string>)
    ensures attributes == TrimValues(values)
    ensures Members(terms) == Flatten(values)
  {
    var keys := Enumerate(values.Keys);
    keys := Sort(TermLe, keys);
    attributes := map[];
    terms := [];
    for n := 0 to |keys|
      invariant Cloned(values, keys[..n], attributes, terms)
    {
      var key := keys[n];
      assert key in multiset(keys);
      assert keys[..n + 1] == keys[..n] + [key];
      ClonedStep(values, keys[..n], key, attributes, terms);
      var value := TrimSpace(values[key]);
      attributes := attributes[key := value];
      terms := terms + [key, value];
    }
    assert keys[..|keys|] == keys;
    ClonedAll(values, keys, attributes, terms);
  }

  lemma TermsOfParts(texts: seq<string>, tags: seq<string>, attributes: map<string, string>,
                     attributeTerms: seq<string>, listed: seq<string>)
    requires Members(attributeTerms) == Flatten(attributes)
    requires listed == texts + tags + attributeTerms || listed == texts + attributeTerms + tags
    ensures TermsOf(IndexedValues(texts, tags, attributes), NormalizeTerms(listed))
  {
    assert Members(listed) == IndexedValues(texts, tags, attributes);
  }

  method BuildSessionDocument(e: SessionEvent) returns (document: Option<Document>)
    ensures document.Some? <==> ValidSession(e)
    ensures document.Some? ==>
              && ValidDocument(document.value)
              && document.value == SessionFields(e, document.value.terms)
              && TermsOf(SessionValues(e), document.value.terms)
  {
    if !ValidSession(e) {
      return None;
    }
    var termValues := SessionTexts(e);
    for n := 0 to |e.tags|
      invariant termValues == SessionTexts(e) + e.tags[..n]
    {
      termValues := termValues + [e.tags[n]];
    }
    var attributes, attributeTerms := CloneAttributes(e.attributes);
    assert e.tags[..|e.tags|] == e.tags;
    termValues := termValues + attributeTerms;
    var terms := Normalize(termValues);
    assert termValues[0] == SessionTitle(e);
    SessionDocumentValid(e, termValues);
    TermsOfParts(SessionTexts(e), e.tags, e.attributes, attributeTerms, termValues);
    return Some(SessionFields(e, terms).(attributes := attributes));
  }

  method BuildAccessDocument(e: AccessEvent) returns (document: Option<Document>)
    ensures document.Some? <==> ValidAccess(e)
    ensures document.Some? ==>
              && ValidDocument(document.value)
              && document.value == AccessFields(e, document.value.terms)
              && TermsOf(AccessValues(e), document.value.terms)
  {
    if !ValidAccess(e) {
      return None;
    }
    var attributes, attributeTerms := CloneAttributes(e.attributes);
    var termValues := AccessTexts(e) + attributeTerms;
    for n := 0 to |e.tags|
      invariant termValues == AccessTexts(e) + attributeTerms + e.tags[..n]
    {
      termValues := termValues + [e.tags[n]];
    }
    assert e.tags[..|e.tags|] == e.tags;
    var terms := Normalize(termValues);
    assert termValues[0] == AccessTitle(e);
    AccessDocumentValid(e, termValues);
    TermsOfParts(AccessTexts(e), e.tags, e.attributes, attributeTerms, termValues);
    return Some(AccessFields(e, terms).(attributes := attributes));
  }

  /** Every title starts with the word network, so no document is without terms. */
  lemma TitleHasTerm(title: string, values: seq<string>)
    requires "network " <= title && title in values
    ensures !Blank(title) && NormalizeTerms(values) != []
  {
    NotBlank(title, 0);
    var low := Lower(title);
    assert forall i: nat | i < 8 :: title[i] == "network "[i];
    assert MaxRun(IsAlnum, low, 0, 7);
    assert IsToken(low, low[0..7]);
    NormalizeTermsSpec(values);
    assert IsTermOf(values, low[0..7]);
  }

  lemma SessionDocumentValid(e: SessionEvent, values: seq<string>)
    requires ValidSession(e) && SessionTitle(e) in values
    ensures ValidDocument(SessionFields(e, NormalizeTerms(values)))
  {
    TitleHasTerm(SessionTitle(e), values);
    NotBlank(SCHEMA_VERSION, 0);
    NotBlank(ENTITY_SESSION, 0);
    NotBlank(e.status, 0);
    TrimBare(IsSpace, ENTITY_SESSION);
  }

  lemma AccessDocumentValid(e: AccessEvent, values: seq<string>)
    requires ValidAccess(e) && AccessTitle(e) in values
    ensures ValidDocument(AccessFields(e, NormalizeTerms(values)))
  {
    TitleHasTerm(AccessTitle(e), values);
    NotBlank(SCHEMA_VERSION, 0);
    NotBlank(ENTITY_ACCESS, 0);
    NotBlank(e.outcome, 0);
    TrimBare(IsSpace, ENTITY_ACCESS);
  }

  // ---------------------------------------------------------------- completeness

  lemma StoredTerms(values: set<string>, document: Document, stored: Document, t: string)
    requires TermsOf(values, document.terms) && NormalizesTo(document, stored)
    ensures stored.terms == document.terms
    ensures t in stored.terms <==> exists v :: v in values && IsTerm(Lower(v), t)
    ensures t in stored.terms ==> t in TermSet(stored)
  {
    var listed :| Members(listed) == values && document.terms == NormalizeTerms(listed);
    NormalizeTermsIdempotent(listed);
    NormalizeTermsSpec(listed);
    if t in stored.terms {
      TermOfNormalized(listed, t, t);
    }
    assert forall v :: v in listed <==> v in values;
  }

  /**
   * A query made by joining any of the indexed values of an event matches every
   * one of its terms in the stored document, through building, normalising at
   * Append and scoring, and scores at least 2 a term plus 1.
   */
  lemma JoinedValuesAreFound(values: set<string>, document: Document, stored: Document,
                             chosen: seq<string>, filter: Query)
    requires TermsOf(values, document.terms) && NormalizesTo(document, stored)
    requires forall v | v in chosen :: v in values
    requires filter.queryText == JoinSpace(chosen) || filter.queryText == TrimSpace(JoinSpace(chosen))
    ensures var queryTerms := NormalizeTerms(chosen);
            var hit := HitOf(filter, stored);
            && NormalizeTerms([filter.queryText]) == queryTerms
            && hit.matchedTerms == queryTerms
            && (queryTerms != [] ==> IsHit(filter, stored) && hit.score >= 2.0 * |queryTerms| as real + 1.0)
  {
    var queryTerms := NormalizeTerms(chosen);
    JoinedQueryTerms(chosen);
    TrimmedQueryTerms(JoinSpace(chosen));
    NormalizeTermsSpec(chosen);
    forall t | t in queryTerms
      ensures t in TermSet(stored)
    {
      var v :| v in chosen && IsTerm(Lower(v), t);
      StoredTerms(values, document, stored, t);
    }
    MatchedMembers(queryTerms, TermSet(stored));
    AllMatched(queryTerms, TermSet(stored));
  }

  lemma {:induction false} AllMatched(queryTerms: seq<string>, terms: set<string>)
    requires forall t | t in queryTerms :: t in terms
    ensures MatchedTerms(queryTerms, terms) == queryTerms
  {
    if queryTerms != [] {
      AllMatched(queryTerms[..|queryTerms| - 1], terms);
    }
  }
}
