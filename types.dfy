/** The shapes shared by the engine: an endpoint record, its timeline entries,
    and the events of the global event log. An endpoint lives on the heap as an
    `Endpoint` object, because the store and the evolution sweep share it by
    reference and update its fields in place; `Record` is the value of its
    fields at one moment, in which the transitions are specified. */
module Types {

  datatype Option<T> = None | Some(value: T)

  /** The kinds of entry in one endpoint's timeline. */
  datatype TimelineKind = SpawnEntry | SuccessEntry | FailureEntry | EvolutionEntry | CheckEntry

  /** One timeline entry; `timestamp` is in milliseconds. */
  datatype TimelineEntry = TimelineEntry(timestamp: int, kind: TimelineKind, health: int, message: string)

  /** The kinds of event in the global event log. */
  datatype DramaKind = SpawnEvent | DeathEvent | EvolutionEvent | PrEvent | BegEvent

  /** One event of the global event log; `timestamp` is in milliseconds. */
  datatype DramaEvent = DramaEvent(timestamp: int, kind: DramaKind, path: string, message: string)

  /** The fields of an endpoint. A timeline may be absent (a record built
      without one); every operation that adds an entry first makes it empty. */
  datatype Record = Record(
    path: string,
    code: string,
    health: int,
    uses: int,
    failures: int,
    lastError: Option<string>,
    lastUsed: int,
    isEvolving: bool,
    prNumber: Option<int>,
    desperation: int,
    timeline: Option<seq<TimelineEntry>>)

  /** The timeline's entries, newest first; an absent timeline has none. */
  function Entries(t: Option<seq<TimelineEntry>>): seq<TimelineEntry> {
    if t.Some? then t.value else []
  }

  /** An endpoint as a heap object. No operation ever assigns `path`. */
  class Endpoint {
    const path: string
    var code: string
    var health: int
    var uses: int
    var failures: int
    var lastError: Option<string>
    var lastUsed: int
    var isEvolving: bool
    var prNumber: Option<int>
    var desperation: int
    var timeline: Option<seq<TimelineEntry>>

    /** The current value of every field. */
    function Snapshot(): Record
      reads this
    {
      Record(path, code, health, uses, failures, lastError, lastUsed, isEvolving, prNumber, desperation, timeline)
    }

    /** An object literal with the fields of `r`. */
    constructor (r: Record)
      ensures Snapshot() == r
    {
      path := r.path;
      code := r.code;
      health := r.health;
      uses := r.uses;
      failures := r.failures;
      lastError := r.lastError;
      lastUsed := r.lastUsed;
      isEvolving := r.isEvolving;
      prNumber := r.prNumber;
      desperation := r.desperation;
      timeline := r.timeline;
    }
  }

  /** The current values of a sequence of endpoints. */
  function Snapshots(s: seq<Endpoint>): (rs: seq<Record>)
    reads s
    ensures |rs| == |s|
    decreases |s|
  {
    if s == [] then [] else Snapshots(s[..|s| - 1]) + [s[|s| - 1].Snapshot()]
  }

  /** Position by position, the values are those of the endpoints. */
  lemma {:induction false} SnapshotsIndex(s: seq<Endpoint>)
    ensures forall i :: 0 <= i < |s| ==> Snapshots(s)[i] == s[i].Snapshot()
    decreases |s|
  {
    if s != [] {
      SnapshotsIndex(s[..|s| - 1]);
    }
  }

  /** The values of endpoints whose fields did not change are what they were. */
  twostate lemma {:induction false} SnapshotsFramed(s: seq<Endpoint>)
    requires forall i :: 0 <= i < |s| ==> unchanged(s[i])
    ensures Snapshots(s) == old(Snapshots(s))
    decreases |s|
  {
    if s != [] {
      SnapshotsFramed(s[..|s| - 1]);
    }
  }

  lemma SnapshotsAppend(s: seq<Endpoint>, e: Endpoint)
    ensures Snapshots(s + [e]) == Snapshots(s) + [e.Snapshot()]
  {
    assert (s + [e])[..|s|] == s;
  }

  lemma {:induction false} SnapshotsConcat(a: seq<Endpoint>, b: seq<Endpoint>)
    ensures Snapshots(a + b) == Snapshots(a) + Snapshots(b)
    decreases |b|
  {
    if b == [] {
      assert a + b == a;
    } else {
      var init := b[..|b| - 1];
      assert a + b == (a + init) + [b[|b| - 1]];
      SnapshotsAppend(a + init, b[|b| - 1]);
      SnapshotsConcat(a, init);
    }
  }

  /** Splitting the collection at position `i`: the prefix grows by the
      value at `i`, the suffix starts with it. */
  lemma SnapshotsSplit(s: seq<Endpoint>, i: nat)
    requires i < |s|
    ensures Snapshots(s[..i + 1]) == Snapshots(s[..i]) + [s[i].Snapshot()]
    ensures Snapshots(s[i..]) == [s[i].Snapshot()] + Snapshots(s[i + 1..])
  {
    assert s[..i + 1] == s[..i] + [s[i]];
    SnapshotsAppend(s[..i], s[i]);
    assert s[i..] == [s[i]] + s[i + 1..];
    SnapshotsConcat([s[i]], s[i + 1..]);
    assert Snapshots([s[i]]) == [s[i].Snapshot()];
  }

  /** No endpoint object occurs twice. */
  predicate Distinct(s: seq<Endpoint>) {
    forall i, j :: 0 <= i < j < |s| ==> s[i] != s[j]
  }

  lemma DistinctAppend(s: seq<Endpoint>, e: Endpoint)
    requires Distinct(s) && e !in s
    ensures Distinct(s + [e])
  {
  }
}
