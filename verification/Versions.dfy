/**
 * What both retrieval searches answer (internal/storage/metadata/retrieval/store.go)
 * over any log: which version of a document the file search chooses, whatever
 * order the versions were appended in, and exactly when that is the version the
 * memory store holds.
 */
module Versions {
  import opened Wrappers
  import opened Sorting
  import opened Text
  import opened Times
  import opened Terms
  import opened Retrieval
  import opened RetrievalStores

  // ---------------------------------------------------------------- the version the fold chooses

  /** By (IngestedAt, OccurredAt). */
  predicate Precedes(a: Document, b: Document) {
    a.ingestedAt < b.ingestedAt || (a.ingestedAt == b.ingestedAt && a.occurredAt < b.occurredAt)
  }

  predicate IsVersion(filter: Query, log: seq<Document>, id: string, i: nat) {
    i < |log| && log[i].documentId == id && Matches(filter, log[i])
  }

  /** The first of the matching versions that nothing goes past. */
  predicate IsFirstGreatest(filter: Query, log: seq<Document>, id: string, i: nat) {
    && IsVersion(filter, log, id, i)
    && (forall j: nat | j < |log| && IsVersion(filter, log, id, j) :: !Precedes(log[i], log[j]))
    && (forall j: nat | j < i && IsVersion(filter, log, id, j) :: Precedes(log[j], log[i]))
  }

  /** Whatever the order of the log, the file search keeps the first of the greatest matching versions. */
  lemma {:induction false} FileKeepsFirstGreatest(filter: Query, log: seq<Document>, id: string) returns (i: nat)
    ensures var kept := Lookup(FileDocuments(filter, log), id);
            && (kept.None? <==> forall j: nat | j < |log| :: !IsVersion(filter, log, id, j))
            && (kept.Some? ==> IsFirstGreatest(filter, log, id, i) && kept.value == log[i])
  {
    hide Matches;
    i := 0;
    if log != [] {
      var n := |log| - 1;
      var before := log[..n];
      assert forall j: nat | j < n :: before[j] == log[j];
      assert forall j: nat | j < n :: IsVersion(filter, before, id, j) == IsVersion(filter, log, id, j);
      i := FileKeepsFirstGreatest(filter, before, id);
      var kept := Lookup(FileDocuments(filter, before), id);
      if IsVersion(filter, log, id, n) && (kept.None? || Precedes(kept.value, log[n])) {
        i := n;
      }
    }
  }

  lemma OnlyOneFirstGreatest(filter: Query, log: seq<Document>, id: string, i: nat, j: nat)
    requires IsFirstGreatest(filter, log, id, i) && IsFirstGreatest(filter, log, id, j)
    ensures i == j
  {
    hide Matches;
  }

  /** So a version is kept if and only if it is that one, or a copy of it. */
  lemma FileKeepsExactly(filter: Query, log: seq<Document>, id: string, i: nat)
    ensures IsFirstGreatest(filter, log, id, i) ==> Lookup(FileDocuments(filter, log), id) == Some(log[i])
    ensures i < |log| && Lookup(FileDocuments(filter, log), id) == Some(log[i]) ==>
              exists k: nat :: IsFirstGreatest(filter, log, id, k) && log[k] == log[i]
  {
    hide Matches, FileDocuments, Precedes;
    var k := FileKeepsFirstGreatest(filter, log, id);
    if IsFirstGreatest(filter, log, id, i) {
      OnlyOneFirstGreatest(filter, log, id, i, k);
    }
  }

  // ---------------------------------------------------------------- agreement, in any order

  /**
   * Every matching version precedes the last version of its document, which
   * matches too; or ties with it, and a copy of the last came no later.
   */
  predicate LastIsChosen(filter: Query, log: seq<Document>) {
    forall i: nat | i < |log| && Matches(filter, log[i]) :: LastGoesPast(filter, log, i)
  }

  predicate LastGoesPast(filter: Query, log: seq<Document>, i: nat)
    requires i < |log|
  {
    var last := LastVersion(log, log[i].documentId);
    && last.Some? && Matches(filter, last.value)
    && (Precedes(log[i], last.value)
        || (!Precedes(last.value, log[i]) && exists k: nat | k <= i :: log[k] == last.value))
  }

  lemma ChosenIsLast(filter: Query, log: seq<Document>, i: nat)
    requires i < |log| && LastIsChosen(filter, log) && IsFirstGreatest(filter, log, log[i].documentId, i)
    ensures LastVersion(log, log[i].documentId) == Some(log[i])
  {
    hide Matches;
    var last := LastVersion(log, log[i].documentId).value;
    assert LastGoesPast(filter, log, i);
    var p: nat :| p < |log| && log[p] == last;
    assert IsVersion(filter, log, log[i].documentId, p);
    var k: nat :| k <= i && log[k] == last;
    assert k < i ==> IsVersion(filter, log, log[i].documentId, k);
  }

  /** What one id contributes to the two maps. */
  lemma AgreeInAnyOrder(filter: Query, log: seq<Document>, id: string)
    requires LastIsChosen(filter, log)
    ensures Lookup(FileDocuments(filter, log), id) == Lookup(Filtered(filter, MemoryMap(log)), id)
  {
    hide Matches, LastIsChosen, FileDocuments, MemoryMap, IsFirstGreatest;
    MemoryKeepsLastVersion(log, id);
    var i := FileKeepsFirstGreatest(filter, log, id);
    if Lookup(FileDocuments(filter, log), id).Some? {
      KeptIsVersion(filter, log, id, i);
      ChosenIsLast(filter, log, i);
    } else {
      LastIsNoVersion(filter, log, id);
    }
  }

  lemma KeptIsVersion(filter: Query, log: seq<Document>, id: string, i: nat)
    requires IsFirstGreatest(filter, log, id, i)
    ensures i < |log| && log[i].documentId == id && Matches(filter, log[i])
  {
  }

  lemma LastIsNoVersion(filter: Query, log: seq<Document>, id: string)
    requires forall j: nat | j < |log| :: !IsVersion(filter, log, id, j)
    ensures var last := LastVersion(log, id); last.Some? ==> !Matches(filter, last.value)
  {
    hide Matches;
    var last := LastVersion(log, id);
    if last.Some? {
      var p: nat :| p < |log| && log[p] == last.value;
      assert !IsVersion(filter, log, id, p);
    }
  }

  lemma LastPassesVersion(filter: Query, log: seq<Document>, i: nat)
    requires i < |log| && Matches(filter, log[i])
    requires Lookup(FileDocuments(filter, log), log[i].documentId)
          == Lookup(Filtered(filter, MemoryMap(log)), log[i].documentId)
    ensures LastGoesPast(filter, log, i)
  {
    hide Matches, FileDocuments, MemoryMap, Precedes;
    var id := log[i].documentId;
    MemoryKeepsLastVersion(log, id);
    var f := FileKeepsFirstGreatest(filter, log, id);
    assert IsVersion(filter, log, id, i);
    assert log[f] == LastVersion(log, id).value;
    if !Precedes(log[i], log[f]) {
      assert f <= i;
    }
  }

  /**
   * Over any log, in order or not, with or without repetitions: the file search
   * gathers what the memory search does if and only if the last version of each
   * document is the one that the file search would choose.
   */
  lemma AgreeExactly(filter: Query, log: seq<Document>)
    ensures FileDocuments(filter, log) == Filtered(filter, MemoryMap(log)) <==> LastIsChosen(filter, log)
  {
    hide Matches, FileDocuments, MemoryMap, Filtered, LastGoesPast;
    var inFile, inMemory := FileDocuments(filter, log), Filtered(filter, MemoryMap(log));
    if LastIsChosen(filter, log) {
      forall id
        ensures Lookup(inFile, id) == Lookup(inMemory, id)
      {
        AgreeInAnyOrder(filter, log, id);
      }
      SameLookups(inFile, inMemory);
    }
    if inFile == inMemory {
      forall i: nat | i < |log| && Matches(filter, log[i])
        ensures LastGoesPast(filter, log, i)
      {
        LastPassesVersion(filter, log, i);
      }
    }
  }

  lemma SameLookups<K, V>(a: map<K, V>, b: map<K, V>)
    requires forall k :: Lookup(a, k) == Lookup(b, k)
    ensures a == b
  {
    forall k
      ensures k in a <==> k in b
      ensures k in a ==> a[k] == b[k]
    {
      assert Lookup(a, k) == Lookup(b, k);
    }
  }

  // ---------------------------------------------------------------- indexing again

  lemma {:induction false} LastOfTwice(a: seq<Document>, b: seq<Document>, id: string)
    ensures LastVersion(a + b, id) == if LastVersion(b, id).Some? then LastVersion(b, id) else LastVersion(a, id)
    decreases |b|
  {
    if b == [] {
      assert a + b == a;
    } else {
      var n := |b| - 1;
      assert (a + b)[..|a + b| - 1] == a + b[..n];
      LastOfTwice(a, b[..n], id);
    }
  }

  /** An index run that starts over and comes to its end changes nothing about the agreement. */
  lemma IndexingAgainKeepsAgreement(filter: Query, log: seq<Document>)
    ensures LastIsChosen(filter, log + log) <==> LastIsChosen(filter, log)
  {
    hide Matches, LastVersion, Precedes;
    var twice := log + log;
    forall id
      ensures LastVersion(twice, id) == LastVersion(log, id)
    {
      LastOfTwice(log, log, id);
    }
    if LastIsChosen(filter, log) {
      forall i: nat | i < |twice| && Matches(filter, twice[i])
        ensures LastGoesPast(filter, twice, i)
      {
        var j := if i < |log| then i else i - |log|;
        assert LastGoesPast(filter, log, j);
        assert forall k: nat | k <= j :: log[k] == twice[k];
      }
    }
    if LastIsChosen(filter, twice) {
      forall i: nat | i < |log| && Matches(filter, log[i])
        ensures LastGoesPast(filter, log, i)
      {
        assert LastGoesPast(filter, twice, i);
        assert forall k: nat | k <= i :: log[k] == twice[k];
      }
    }
  }

  const ANY_NET := Query("", "net", "", "", "", "", "", "", "", None, None, 0)

  /**
   * An index run that starts over and stops half way: the older version of a
   * stored session document is appended again after the newer one. Asked for
   * "net", every answer of the file store holds the newer version and every
   * answer of the memory store the older one.
   */
  lemma HalfIndexedAgainDisagrees(fromFile: seq<Hit>, fromMemory: seq<Hit>)
    requires IsRanking(ANY_NET, FileDocuments(ANY_NET, [STOPPED, STARTED]), fromFile)
    requires IsRanking(ANY_NET, Filtered(ANY_NET, MemoryMap([STOPPED, STARTED])), fromMemory)
    ensures Settled(STARTED) && Settled(STOPPED) && !LastIsChosen(ANY_NET, [STOPPED, STARTED])
    ensures fromFile == [HitOf(ANY_NET, STOPPED)] && fromMemory == [HitOf(ANY_NET, STARTED)]
  {
    hide Settled, IsHit, HitOf, FileDocuments, MemoryMap, Filtered, HitLe, LastIsChosen;
    StartedIsSettled(STARTED);
    StartedIsSettled(STOPPED);
    HalfIndexedMaps();
    AgreeExactly(ANY_NET, [STOPPED, STARTED]);
    OnlyDocument(STOPPED, fromFile);
    OnlyDocument(STARTED, fromMemory);
  }

  lemma HalfIndexedMaps()
    ensures FileDocuments(ANY_NET, [STOPPED, STARTED]) == map["d" := STOPPED]
    ensures Filtered(ANY_NET, MemoryMap([STOPPED, STARTED])) == map["d" := STARTED]
    ensures STARTED != STOPPED && map["d" := STARTED]["d"] != map["d" := STOPPED]["d"]
  {
    var log := [STOPPED, STARTED];
    assert log[..1] == [STOPPED] && log[..1][..0] == [];
    assert TrimSpace("") == "";
    assert Matches(ANY_NET, STARTED) && Matches(ANY_NET, STOPPED);
    assert FileDocuments(ANY_NET, [STOPPED]) == map["d" := STOPPED];
    assert MemoryMap([STOPPED]) == map["d" := STOPPED];
    assert MemoryMap(log) == map["d" := STARTED];
  }

  lemma OnlyDocument(d: Document, hits: seq<Hit>)
    requires d == STARTED || d == STOPPED
    requires IsRanking(ANY_NET, map["d" := d], hits)
    ensures hits == [HitOf(ANY_NET, d)]
  {
    hide IsHit, HitOf, HitLe;
    NetIsHit(d);
    var docs := map["d" := d];
    assert "d" in docs && docs["d"] == d;
    assert HitSet(ANY_NET, docs) == {HitOf(ANY_NET, d)};
    OneHit(ANY_NET, docs, HitOf(ANY_NET, d), hits);
  }

  lemma NetIsHit(d: Document)
    requires d == STARTED || d == STOPPED
    ensures IsHit(ANY_NET, d)
  {
    hide NormalizeTerms;
    OneTerm();
    TrimBare(IsSpace, "net");
    assert Lower("net") == "net";
    assert "net" in d.terms && "net" in TermSet(d);
    assert ["net"][..0] == [];
    assert MatchedTerms(["net"], TermSet(d)) == ["net"];
  }
}
