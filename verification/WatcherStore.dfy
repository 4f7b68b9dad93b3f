/**
 * The checkpoint stores of internal/storage/metadata/agents/watcher_state.go.
 * The file store keeps, of the records under a key, the first with the
 * greatest UpdatedAt; the memory store keeps the last one upserted.
 */
module WatcherStore {
  import opened Wrappers
  import opened Text
  import opened Times

  datatype WatcherState = WatcherState(
    key: string,
    watcherName: string,
    tenantId: string,
    subjectId: string,
    lastEventId: string,
    lastOccurredAt: Option<Time>,
    lastRunId: string,
    updatedAt: Time)

  datatype StoreError = Invalid | KeyRequired | NotFound

  function Normalize(s: WatcherState): WatcherState {
    WatcherState(TrimSpace(s.key), TrimSpace(s.watcherName), TrimSpace(s.tenantId), TrimSpace(s.subjectId),
                 TrimSpace(s.lastEventId), s.lastOccurredAt, TrimSpace(s.lastRunId), s.updatedAt)
  }

  predicate ValidState(s: WatcherState) {
    && !Blank(s.key) && !Blank(s.watcherName) && !Blank(s.tenantId) && !Blank(s.subjectId)
    && !Blank(s.lastEventId) && s.updatedAt != ZERO_TIME
  }

  predicate Settled(s: WatcherState) {
    Normalize(s) == s && ValidState(s)
  }

  lemma NormalizeSettles(s: WatcherState)
    ensures Normalize(Normalize(s)) == Normalize(s)
    ensures ValidState(Normalize(s)) <==> ValidState(s)
  {
    TrimTrim(IsSpace, s.key);
    TrimTrim(IsSpace, s.watcherName);
    TrimTrim(IsSpace, s.tenantId);
    TrimTrim(IsSpace, s.subjectId);
    TrimTrim(IsSpace, s.lastEventId);
    TrimTrim(IsSpace, s.lastRunId);
    TrimNotBlank(s.key);
    TrimNotBlank(s.watcherName);
    TrimNotBlank(s.tenantId);
    TrimNotBlank(s.subjectId);
    TrimNotBlank(s.lastEventId);
  }

  /** The scan of FileWatcherStateStore.GetWatcherState. */
  function Scan(log: seq<WatcherState>, key: string): Option<WatcherState> {
    if log == [] then None
    else
      var latest := Scan(log[..|log| - 1], key);
      var s := log[|log| - 1];
      if s.key == key && (latest.None? || s.updatedAt > latest.value.updatedAt) then Some(s) else latest
  }

  /** Of the checkpoints under a key the scan finds the first that is as late as any. */
  lemma {:induction false} ScanIsFirstLatest(log: seq<WatcherState>, key: string) returns (i: nat)
    ensures Scan(log, key).None? <==> forall j: nat | j < |log| :: log[j].key != key
    ensures Scan(log, key).Some? ==>
              && i < |log| && log[i].key == key && Scan(log, key).value == log[i]
              && (forall j: nat | j < |log| && log[j].key == key :: log[j].updatedAt <= log[i].updatedAt)
              && (forall j: nat | j < i && log[j].key == key :: log[j].updatedAt < log[i].updatedAt)
  {
    i := 0;
    if log != [] {
      var n := |log| - 1;
      assert forall j: nat | j < n :: log[..n][j] == log[j];
      i := ScanIsFirstLatest(log[..n], key);
      var before := Scan(log[..n], key);
      if log[n].key == key && (before.None? || log[n].updatedAt > before.value.updatedAt) {
        i := n;
      }
    }
  }

  /** A checkpoint needs five texts and a time; the run id may be missing. */
  lemma ValidExactly(s: WatcherState)
    ensures ValidState(s) <==>
              && TrimSpace(s.key) != "" && TrimSpace(s.watcherName) != "" && TrimSpace(s.tenantId) != ""
              && TrimSpace(s.subjectId) != "" && TrimSpace(s.lastEventId) != "" && s.updatedAt != 0
  {
    hide TrimSpace, Blank;
    BlankTrims(s.key);
    BlankTrims(s.watcherName);
    BlankTrims(s.tenantId);
    BlankTrims(s.subjectId);
    BlankTrims(s.lastEventId);
  }

  /** The map of a MemoryWatcherStateStore that was given the same upserts. */
  function MemoryMap(log: seq<WatcherState>): map<string, WatcherState> {
    if log == [] then map[] else MemoryMap(log[..|log| - 1])[log[|log| - 1].key := log[|log| - 1]]
  }

  class FileStore {
    var log: seq<WatcherState>

    predicate Valid()
      reads this
    {
      forall k: nat | k < |log| :: Settled(log[k])
    }

    constructor ()
      ensures Valid() && log == []
    {
      log := [];
    }

    method Upsert(state: WatcherState) returns (result: Result<(), StoreError>)
      requires Valid()
      modifies this
      ensures Valid()
      ensures result.Ok? <==> ValidState(state)
      ensures log == if result.Ok? then old(log) + [Normalize(state)] else old(log)
    {
      var normalized := Normalize(state);
      NormalizeSettles(state);
      if !ValidState(normalized) {
        return Err(Invalid);
      }
      log := log + [normalized];
      return Ok(());
    }

    method Get(key: string) returns (result: Result<WatcherState, StoreError>)
      requires Valid()
      ensures result == (if Blank(key) then Err(KeyRequired)
                         else match Scan(log, TrimSpace(key))
                              case None => Err(NotFound)
                              case Some(s) => Ok(s))
    {
      var wanted := TrimSpace(key);
      BlankTrims(key);
      if wanted == "" {
        return Err(KeyRequired);
      }
      var latest: Option<WatcherState> := None;
      for n := 0 to |log|
        invariant latest == Scan(log[..n], wanted)
      {
        assert log[..n + 1][..n] == log[..n];
        assert Settled(log[n]);
        var state := Normalize(log[n]);
        if !ValidState(state) {
          return Err(Invalid);
        }
        if state.key != wanted {
          continue;
        }
        if latest.None? || state.updatedAt > latest.value.updatedAt {
          latest := Some(state);
        }
      }
      assert log[..|log|] == log;
      return if latest.None? then Err(NotFound) else Ok(latest.value);
    }
  }

  class MemoryStore {
    var states: map<string, WatcherState>

    constructor ()
      ensures states == map[]
    {
      states := map[];
    }

    method Upsert(state: WatcherState) returns (result: Result<(), StoreError>)
      modifies this
      ensures result.Ok? <==> ValidState(state)
      ensures var n := Normalize(state); states == if result.Ok? then old(states)[n.key := n] else old(states)
    {
      var normalized := Normalize(state);
      NormalizeSettles(state);
      if !ValidState(normalized) {
        return Err(Invalid);
      }
      states := states[normalized.key := normalized];
      return Ok(());
    }

    method Get(key: string) returns (result: Result<WatcherState, StoreError>)
      ensures var wanted := TrimSpace(key);
              result == (if wanted == "" then Err(KeyRequired)
                         else if wanted !in states then Err(NotFound) else Ok(states[wanted]))
    {
      var wanted := TrimSpace(key);
      if wanted == "" {
        return Err(KeyRequired);
      }
      return if wanted !in states then Err(NotFound) else Ok(states[wanted]);
    }
  }

  predicate StrictUpdates(log: seq<WatcherState>) {
    forall i: nat, j: nat | i < j < |log| && log[i].key == log[j].key :: log[i].updatedAt < log[j].updatedAt
  }

  /** The position of the last checkpoint under a key. */
  function LastIndex(log: seq<WatcherState>, key: string): (i: int)
    ensures -1 <= i < |log|
    ensures i >= 0 ==> log[i].key == key
    ensures forall k: nat | i < k < |log| :: log[k].key != key
  {
    if log == [] then -1
    else if log[|log| - 1].key == key then |log| - 1
    else LastIndex(log[..|log| - 1], key)
  }

  /** With strictly increasing UpdatedAt under every key, both stores answer with the last checkpoint. */
  lemma {:induction false} StoresAgree(log: seq<WatcherState>, key: string)
    requires StrictUpdates(log)
    ensures var i := LastIndex(log, key);
            && Scan(log, key) == (if i < 0 then None else Some(log[i]))
            && Lookup(MemoryMap(log), key) == Scan(log, key)
  {
    if log != [] {
      var n := |log| - 1;
      assert forall k: nat | k < n :: log[..n][k] == log[k];
      StoresAgree(log[..n], key);
    }
  }
}
