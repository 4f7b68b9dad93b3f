/**
 * The unified events of internal/contracts/unified/sessions and
 * internal/contracts/unified/access, with the fields that the modelled code
 * reads. A time is an integer and 0 is Go's zero time.
 */
module Events {
  import opened Wrappers
  import opened Text
  import opened Times

  const STATUS_START := "start"
  const STATUS_INTERIM := "interim_update"
  const STATUS_STOP := "stop"

  const OUTCOME_ACCEPTED := "accepted"
  const OUTCOME_REJECTED := "rejected"
  const OUTCOME_CHALLENGED := "challenged"

  datatype SessionEvent = SessionEvent(
    eventId: string,
    sourceEventId: string,
    source: string,
    sourceKey: string,
    schemaVersion: string,
    eventType: string,
    tenantId: string,
    occurredAt: Time,
    ingestedAt: Time,
    subscriberId: string,
    sessionId: string,
    status: string,
    nasIp: string,
    clientIp: string,
    sessionTimeSeconds: Option<nat>,
    tags: seq<string>,
    semanticText: string,
    attributes: map<string, string>)

  datatype AccessEvent = AccessEvent(
    eventId: string,
    sourceEventId: string,
    source: string,
    sourceKey: string,
    schemaVersion: string,
    eventType: string,
    tenantId: string,
    occurredAt: Time,
    ingestedAt: Time,
    subscriberId: string,
    requestId: string,
    sessionId: string,
    outcome: string,
    rejectReason: string,
    nasIp: string,
    clientIp: string,
    policyName: string,
    tags: seq<string>,
    semanticText: string,
    attributes: map<string, string>)

  predicate ValidStatus(status: string) {
    status == STATUS_START || status == STATUS_INTERIM || status == STATUS_STOP
  }

  predicate ValidOutcome(outcome: string) {
    outcome == OUTCOME_ACCEPTED || outcome == OUTCOME_REJECTED || outcome == OUTCOME_CHALLENGED
  }

  predicate ValidSession(e: SessionEvent) {
    && !Blank(e.eventId) && !Blank(e.sourceEventId) && !Blank(e.source) && !Blank(e.sourceKey)
    && !Blank(e.schemaVersion) && !Blank(e.eventType) && !Blank(e.tenantId) && !Blank(e.subscriberId)
    && !Blank(e.sessionId) && ValidStatus(e.status)
    && e.occurredAt != ZERO_TIME && e.ingestedAt != ZERO_TIME && !Blank(e.semanticText)
  }

  predicate ValidAccess(e: AccessEvent) {
    && !Blank(e.eventId) && !Blank(e.sourceEventId) && !Blank(e.source) && !Blank(e.sourceKey)
    && !Blank(e.schemaVersion) && !Blank(e.eventType) && !Blank(e.tenantId) && !Blank(e.subscriberId)
    && !Blank(e.requestId) && ValidOutcome(e.outcome)
    && e.occurredAt != ZERO_TIME && e.ingestedAt != ZERO_TIME && !Blank(e.semanticText)
  }

  /** The texts that every session event needs. */
  function SessionNeeds(e: SessionEvent): seq<string> {
    [e.eventId, e.sourceEventId, e.source, e.sourceKey, e.schemaVersion, e.eventType, e.tenantId, e.subscriberId,
     e.sessionId, e.semanticText]
  }

  function AccessNeeds(e: AccessEvent): seq<string> {
    [e.eventId, e.sourceEventId, e.source, e.sourceKey, e.schemaVersion, e.eventType, e.tenantId, e.subscriberId,
     e.requestId, e.semanticText]
  }

  lemma AllHaveText(texts: seq<string>)
    requires |texts| == 10
    ensures (forall text | text in texts :: TrimSpace(text) != "") <==>
              && !Blank(texts[0]) && !Blank(texts[1]) && !Blank(texts[2]) && !Blank(texts[3]) && !Blank(texts[4])
              && !Blank(texts[5]) && !Blank(texts[6]) && !Blank(texts[7]) && !Blank(texts[8]) && !Blank(texts[9])
  {
    hide TrimSpace, Blank;
    forall k: nat | k < 10
      ensures Blank(texts[k]) <==> TrimSpace(texts[k]) == ""
    {
      BlankTrims(texts[k]);
    }
    assert forall k: nat | k < 10 :: texts[k] in texts;
    assert (forall text | text in texts :: TrimSpace(text) != "") <==> forall k: nat | k < 10 :: !Blank(texts[k]);
  }

  /** A session event is valid with text in ten fields, a status of accounting, and both times. */
  lemma ValidSessionExactly(e: SessionEvent)
    ensures ValidSession(e) <==>
              && (forall text | text in SessionNeeds(e) :: TrimSpace(text) != "")
              && e.status in {"start", "interim_update", "stop"} && e.occurredAt != 0 && e.ingestedAt != 0
  {
    hide TrimSpace, Blank;
    AllHaveText(SessionNeeds(e));
  }

  /** An access event is valid with text in ten fields, an outcome of authentication, and both times. */
  lemma ValidAccessExactly(e: AccessEvent)
    ensures ValidAccess(e) <==>
              && (forall text | text in AccessNeeds(e) :: TrimSpace(text) != "")
              && e.outcome in {"accepted", "rejected", "challenged"} && e.occurredAt != 0 && e.ingestedAt != 0
  {
    hide TrimSpace, Blank;
    AllHaveText(AccessNeeds(e));
  }
}
