/** The lifecycle store: the process-wide collection of endpoints and the
    operations that create them (spawn), run them (execute) and age them out
    (decay). The code generator, the execution of generated code and the clock
    are outside the model; their outcomes arrive as arguments. */
module Endpoints {
  import opened Bounded
  import opened Text
  import opened Types
  import opened Drama

  /** One hour in milliseconds. */
  const Hour := 60 * 60 * 1000

  /** Capacity of a timeline once an operation truncates it. */
  const MaxTimeline := 20

  /** What the code generator returned: a text, or a thrown error. */
  datatype GenOutcome = GenOk(text: string) | GenErr

  /** What running an endpoint's code did: returned a value, or threw an error with a message. */
  datatype ExecOutcome = ExecOk(value: string) | ExecErr(message: string)

  /** What `execute` gives its caller: the code's value, the code's error
      re-thrown, or the error of a failed spawn. */
  datatype ExecResult = Returned(value: string) | Raised(message: string) | SpawnFailed

  /** The bounds every operation of the engine keeps: health within 0..100,
      non-negative counters, and a timeline of at most 21 entries (20 after any
      truncation, plus the one entry `evolve` adds without truncating). */
  ghost predicate WellFormed(r: Record) {
    0 <= r.health <= 100 && r.uses >= 0 && r.failures >= 0 && r.desperation >= 0
    && |Entries(r.timeline)| <= MaxTimeline + 1
  }

  // ---------------------------------------------------------------------------
  // Transitions of one record

  /** The record `spawn` creates for `path` from the generated `text`. */
  function Spawned(path: string, text: string, now: int): Record {
    Record(path, Trim(text), 100, 0, 0, None, now, false, None, 0,
           Some([TimelineEntry(now, SpawnEntry, 100, "Spawned with AI-generated code")]))
  }

  function SpawnNews(path: string, now: int): DramaEvent {
    DramaEvent(now, SpawnEvent, path, path + " spawned into existence")
  }

  /** The record after `execute` ran its code with outcome `exec` at time `now`. */
  function AfterRun(r: Record, exec: ExecOutcome, now: int): Record {
    match exec
    case ExecOk(_) =>
      var h := Min(100, r.health + 5);
      r.(lastUsed := now, health := h, uses := r.uses + 1,
         timeline := Some(Push(Entries(r.timeline), TimelineEntry(now, SuccessEntry, h, "Executed successfully"), MaxTimeline)))
    case ExecErr(msg) =>
      var h := Max(0, r.health - 10);
      r.(lastUsed := now, health := h, failures := r.failures + 1, desperation := r.desperation + 1,
         lastError := Some(msg),
         timeline := Some(Push(Entries(r.timeline), TimelineEntry(now, FailureEntry, h, msg), MaxTimeline)))
  }

  function BegNews(path: string, health: int, msg: string, now: int): DramaEvent {
    DramaEvent(now, BegEvent, path,
               path + " is dying (" + IntToString(health) + "% health): " + Excerpt(msg, 60) + "...")
  }

  /** The event log after `execute` ran the code of `path`, leaving it at `health`. */
  function AfterRunLog(log: seq<DramaEvent>, path: string, health: int, exec: ExecOutcome, now: int): seq<DramaEvent> {
    if exec.ExecErr? && health <= 30 then Push(log, BegNews(path, health, exec.message, now), MaxEvents) else log
  }

  function Reply(exec: ExecOutcome): ExecResult {
    match exec
    case ExecOk(v) => Returned(v)
    case ExecErr(m) => Raised(m)
  }

  function DecayNote(amount: int, hours: int): string {
    "Decayed -" + IntToString(amount) + " health (unused for " + IntToString(hours) + "h)"
  }

  /** The record after the decay sweep visited it at time `now`. */
  function Decayed(r: Record, now: int): Record {
    var idle := now - r.lastUsed;
    if idle > Hour && r.health > 0 then
      var hours := idle / Hour;
      var amount := 5 * hours;
      var h := Max(0, r.health - amount);
      r.(health := h,
         timeline := Some(Push(Entries(r.timeline), TimelineEntry(now, CheckEntry, h, DecayNote(amount, hours)), MaxTimeline)))
    else r
  }

  /** Every record after the decay sweep visited it at time `now`. */
  function DecayedAll(rs: seq<Record>, now: int): (r: seq<Record>)
    ensures |r| == |rs|
    ensures forall j :: 0 <= j < |rs| ==> r[j] == Decayed(rs[j], now)
    decreases |rs|
  {
    if rs == [] then [] else DecayedAll(rs[..|rs| - 1], now) + [Decayed(rs[|rs| - 1], now)]
  }

  function DeathNote(path: string, now: int): DramaEvent {
    DramaEvent(now, DeathEvent, path, path + " died (0% health)")
  }

  // ---------------------------------------------------------------------------
  // Queries and filters over the collection

  /** Position of the first endpoint with `path`, or |s| when there is none. */
  function IndexOf(s: seq<Endpoint>, path: string): (k: nat)
    ensures k <= |s|
    ensures k < |s| ==> s[k].path == path
    ensures forall i :: 0 <= i < k ==> s[i].path != path
    decreases |s|
  {
    if s == [] then 0 else if s[0].path == path then 0 else 1 + IndexOf(s[1..], path)
  }

  /** The endpoints whose health is positive, in their order. */
  function Survivors(s: seq<Endpoint>): (r: seq<Endpoint>)
    reads s
    ensures |r| <= |s|
    decreases |s|
  {
    if s == [] then []
    else Survivors(s[..|s| - 1]) + (if s[|s| - 1].health > 0 then [s[|s| - 1]] else [])
  }

  /** The endpoints whose health is zero, in their order. */
  function Dead(s: seq<Endpoint>): (r: seq<Endpoint>)
    reads s
    ensures |r| <= |s|
    decreases |s|
  {
    if s == [] then []
    else Dead(s[..|s| - 1]) + (if s[|s| - 1].health == 0 then [s[|s| - 1]] else [])
  }

  /** No two endpoints share a path. Paths never change, so this is a
      property of the collection alone. */
  predicate UniquePaths(s: seq<Endpoint>) {
    forall i, j :: 0 <= i < j < |s| ==> s[i].path != s[j].path
  }

  /** Every record of `s` keeps the engine's bounds. */
  ghost predicate AllWellFormed(rs: seq<Record>) {
    forall i :: 0 <= i < |rs| ==> WellFormed(rs[i])
  }

  /** One death event per endpoint of `dead`, in the same order. */
  function DeathNews(dead: seq<Endpoint>, now: int): (r: seq<DramaEvent>)
    ensures |r| == |dead|
    ensures forall i :: 0 <= i < |dead| ==> r[i] == DeathNote(dead[i].path, now)
    decreases |dead|
  {
    if dead == [] then [] else DeathNews(dead[..|dead| - 1], now) + [DeathNote(dead[|dead| - 1].path, now)]
  }

  /** The endpoints of `s` whose record in `rs` (position by position) has
      positive health, in their order. */
  function Keep(s: seq<Endpoint>, rs: seq<Record>): (r: seq<Endpoint>)
    requires |rs| == |s|
    ensures |r| <= |s|
    decreases |s|
  {
    if s == [] then []
    else Keep(s[..|s| - 1], rs[..|s| - 1]) + (if rs[|s| - 1].health > 0 then [s[|s| - 1]] else [])
  }

  /** The death events for the records of `rs` whose health is zero, in their order. */
  function Deaths(rs: seq<Record>, now: int): (r: seq<DramaEvent>)
    ensures |r| <= |rs|
    decreases |rs|
  {
    if rs == [] then []
    else Deaths(rs[..|rs| - 1], now) + (if rs[|rs| - 1].health == 0 then [DeathNote(rs[|rs| - 1].path, now)] else [])
  }

  // ---------------------------------------------------------------------------
  // The store

  class Store {
    var endpoints: seq<Endpoint>
    const drama: DramaLog

    ghost predicate Valid()
      reads this, drama
    {
      drama.Valid() && Distinct(endpoints)
    }

    /** Every live record keeps the engine's bounds. */
    ghost predicate Healthy()
      reads this, endpoints
    {
      forall i :: 0 <= i < |endpoints| ==> WellFormed(endpoints[i].Snapshot())
    }

    constructor (drama: DramaLog)
      requires drama.Valid()
      ensures Valid() && endpoints == [] && this.drama == drama
    {
      endpoints := [];
      this.drama := drama;
    }

    /** The live collection itself, shared by reference with the caller. */
    function GetAll(): (r: seq<Endpoint>)
      reads this
      ensures r == endpoints
    {
      endpoints
    }

    /** The first endpoint whose path is `path`, if any. */
    function Get(path: string): (r: Option<Endpoint>)
      reads this
      ensures r.None? <==> forall i :: 0 <= i < |endpoints| ==> endpoints[i].path != path
      ensures r.Some? ==> exists k :: 0 <= k < |endpoints| && endpoints[k] == r.value && r.value.path == path
                                      && forall i :: 0 <= i < k ==> endpoints[i].path != path
    {
      var k := IndexOf(endpoints, path);
      if k < |endpoints| then Some(endpoints[k]) else None
    }

    /** Creates a record for `path` from the generated code and appends it;
        it does not look for an existing record with the same path. When
        generation throws, nothing changes and the error reaches the caller. */
    method Spawn(path: string, gen: GenOutcome, now: int) returns (r: Option<Endpoint>)
      requires Valid()
      modifies this, drama
      ensures Valid()
      ensures gen.GenErr? ==> r == None && endpoints == old(endpoints) && drama.events == old(drama.events)
      ensures gen.GenOk? ==>
        r.Some? && fresh(r.value) && endpoints == old(endpoints) + [r.value]
        && r.value.Snapshot() == Spawned(path, gen.text, now)
        && drama.events == Push(old(drama.events), SpawnNews(path, now), MaxEvents)
      ensures old(Healthy()) ==> Healthy()
    {
      if gen.GenErr? {
        return None;
      }
      var e := new Endpoint(Spawned(path, gen.text, now));
      ghost var before := endpoints;
      DistinctAppend(endpoints, e);
      endpoints := endpoints + [e];
      drama.AddDrama(SpawnEvent, path, SpawnNews(path, now).message, now);
      r := Some(e);
      SpawnedRecord(path, gen.text, now);
    }

    /** Runs the code of `e` with outcome `exec` and updates its bookkeeping. */
    method Run(e: Endpoint, exec: ExecOutcome, now: int) returns (r: ExecResult)
      requires drama.Valid()
      modifies e, drama
      ensures drama.Valid()
      ensures e.Snapshot() == AfterRun(old(e.Snapshot()), exec, now)
      ensures drama.events == AfterRunLog(old(drama.events), e.path, e.health, exec, now)
      ensures r == Reply(exec)
      ensures old(Healthy()) ==> Healthy()
    {
      ghost var before, healthy := e.Snapshot(), Healthy();
      r := RunOne(e, drama, exec, now);
      if healthy {
        if e in endpoints {
          RunKeepsWellFormed(before, exec, now);
        }
        HealthyAfterRun(this);
      }
    }

    /** The bookkeeping of one run, on the record and the event log. */
    static method RunOne(e: Endpoint, log: DramaLog, exec: ExecOutcome, now: int) returns (r: ExecResult)
      requires log.Valid()
      modifies e, log
      ensures log.Valid()
      ensures e.Snapshot() == AfterRun(old(e.Snapshot()), exec, now)
      ensures log.events == AfterRunLog(old(log.events), e.path, e.health, exec, now)
      ensures r == Reply(exec)
    {
      e.lastUsed := now;
      match exec {
        case ExecOk(value) =>
          e.health := Min(100, e.health + 5);
          e.uses := e.uses + 1;
          e.timeline := Some(Push(Entries(e.timeline), TimelineEntry(now, SuccessEntry, e.health, "Executed successfully"), MaxTimeline));
          r := Returned(value);
        case ExecErr(msg) =>
          e.health := Max(0, e.health - 10);
          e.failures := e.failures + 1;
          e.desperation := e.desperation + 1;
          e.lastError := Some(msg);
          e.timeline := Some(Push(Entries(e.timeline), TimelineEntry(now, FailureEntry, e.health, msg), MaxTimeline));
          if e.health <= 30 {
            log.AddDrama(BegEvent, e.path, BegNews(e.path, e.health, msg, now).message, now);
          }
          r := Raised(msg);
      }
    }

    /** Executes the endpoint at `path`, spawning it first when there is none. */
    method Execute(path: string, gen: GenOutcome, exec: ExecOutcome, now: int) returns (r: ExecResult)
      requires Valid()
      modifies this, drama, endpoints
      ensures Valid()
      ensures var k := IndexOf(old(endpoints), path);
        k < |old(endpoints)| ==>
          endpoints == old(endpoints)
          && endpoints[k].Snapshot() == AfterRun(old(endpoints[k].Snapshot()), exec, now)
          && drama.events == AfterRunLog(old(drama.events), path, endpoints[k].health, exec, now)
          && r == Reply(exec)
      ensures var n := |old(endpoints)|;
        IndexOf(old(endpoints), path) == n && gen.GenErr? ==>
          endpoints == old(endpoints) && drama.events == old(drama.events) && r == SpawnFailed
      ensures var n := |old(endpoints)|;
        IndexOf(old(endpoints), path) == n && gen.GenOk? ==>
          |endpoints| == n + 1 && endpoints[..n] == old(endpoints) && fresh(endpoints[n])
          && endpoints[n].Snapshot() == AfterRun(Spawned(path, gen.text, now), exec, now)
          && drama.events == AfterRunLog(Push(old(drama.events), SpawnNews(path, now), MaxEvents),
                                         path, endpoints[n].health, exec, now)
          && r == Reply(exec)
      ensures forall i :: 0 <= i < |old(endpoints)| && i != IndexOf(old(endpoints), path) ==>
        unchanged(old(endpoints)[i])
      ensures UniquePaths(old(endpoints)) ==> UniquePaths(endpoints)
      ensures old(Healthy()) ==> Healthy()
    {
      var found := Get(path);
      var e: Endpoint;
      if found.Some? {
        e := found.value;
      } else {
        ghost var s := endpoints;
        var spawned := Spawn(path, gen, now);
        if spawned.None? {
          return SpawnFailed;
        }
        e := spawned.value;
        if UniquePaths(s) {
          UniqueAppend(s, e);
        }
      }
      r := Run(e, exec, now);
    }

    /** The idle-time penalty, applied to one record. */
    static method DecayOne(e: Endpoint, now: int)
      modifies e
      ensures e.Snapshot() == Decayed(old(e.Snapshot()), now)
    {
      var idle := now - e.lastUsed;
      if idle > Hour {
        var hours := idle / Hour;
        var amount := 5 * hours;
        if e.health > 0 {
          e.health := Max(0, e.health - amount);
          e.timeline := Some(Push(Entries(e.timeline), TimelineEntry(now, CheckEntry, e.health, DecayNote(amount, hours)), MaxTimeline));
        }
      }
    }

    /** One step of the sweep: the idle-time penalty, applied to the record
        at position `i` and to no other. `before` and `after` are the values
        of the whole collection before and after the sweep. */
    method DecayAt(i: nat, now: int, ghost before: seq<Record>, ghost after: seq<Record>)
      requires Distinct(endpoints) && i < |endpoints| == |before| && after == DecayedAll(before, now)
      requires Snapshots(endpoints[..i]) == after[..i] && Snapshots(endpoints[i..]) == before[i..]
      modifies endpoints[i]
      ensures Snapshots(endpoints[..i + 1]) == after[..i + 1]
      ensures Snapshots(endpoints[i + 1..]) == before[i + 1..]
    {
      SweepVisits(endpoints, i, before);
      DecayOne(endpoints[i], now);
      SnapshotsFramed(endpoints[..i]);
      SnapshotsFramed(endpoints[i + 1..]);
      SweepAdvances(endpoints, i, after);
    }

    /** The first half of `decay`: the idle-time penalty, record by record. */
    method Sweep(now: int)
      requires Valid()
      modifies endpoints
      ensures Snapshots(endpoints) == DecayedAll(old(Snapshots(endpoints)), now)
    {
      ghost var before := Snapshots(endpoints);
      ghost var after := DecayedAll(before, now);
      var i := 0;
      while i < |endpoints|
        invariant 0 <= i <= |endpoints|
        invariant Snapshots(endpoints[..i]) == after[..i]
        invariant Snapshots(endpoints[i..]) == before[i..]
      {
        DecayAt(i, now, before, after);
        i := i + 1;
      }
      assert endpoints[..i] == endpoints;
    }

    /** The second step of `decay`: one death event for each record of
        health zero, in the order of the collection. */
    method AnnounceDeaths(now: int)
      requires drama.Valid()
      modifies drama
      ensures drama.Valid()
      ensures drama.events == PushAll(old(drama.events), Deaths(old(Snapshots(endpoints)), now), MaxEvents)
    {
      var dead := Dead(endpoints);
      DeathNewsOfDead(endpoints, now);
      Announce(drama, dead, now);
    }

    /** The loop that announces the dead records, first one first. */
    static method Announce(log: DramaLog, dead: seq<Endpoint>, now: int)
      requires log.Valid()
      modifies log
      ensures log.Valid()
      ensures log.events == PushAll(old(log.events), DeathNews(dead, now), MaxEvents)
    {
      var d := 0;
      while d < |dead|
        invariant 0 <= d <= |dead|
        invariant log.Valid()
        invariant log.events == PushAll(old(log.events), DeathNews(dead[..d], now), MaxEvents)
      {
        log.AddDrama(DeathEvent, dead[d].path, DeathNote(dead[d].path, now).message, now);
        assert dead[..d + 1][..d] == dead[..d];
        d := d + 1;
      }
      assert dead[..d] == dead;
    }

    /** The last step of `decay`: only the records of positive health stay. */
    method RemoveDead()
      requires Distinct(endpoints)
      modifies this
      ensures endpoints == Keep(old(endpoints), old(Snapshots(endpoints)))
      ensures Distinct(endpoints)
      ensures forall i :: 0 <= i < |endpoints| ==> endpoints[i].health > 0
      ensures old(Healthy()) ==> Healthy()
    {
      SurvivorsKept(endpoints);
      SurvivorsDistinct(endpoints);
      SurvivorsAlive(endpoints);
      var live := Survivors(endpoints);
      if Healthy() {
        WellFormedSnapshots(endpoints);
        SurvivorsWellFormed(endpoints);
        WellFormedSnapshots(live);
      }
      endpoints := live;
    }

    /** The second half of `decay`: announce every record of health zero,
        then keep only the records of positive health. */
    method Cull(now: int)
      requires Valid()
      modifies this, drama
      ensures Valid()
      ensures Snapshots(old(endpoints)) == old(Snapshots(endpoints))
      ensures endpoints == Keep(old(endpoints), old(Snapshots(endpoints)))
      ensures forall i :: 0 <= i < |endpoints| ==> endpoints[i].health > 0
      ensures drama.events == PushAll(old(drama.events), Deaths(old(Snapshots(endpoints)), now), MaxEvents)
      ensures old(Healthy()) ==> Healthy()
    {
      ghost var s := endpoints;
      AnnounceDeaths(now);
      RemoveDead();
      SnapshotsFramed(s);
    }

    /** Lowers the health of every record unused for more than an hour by 5
        per whole idle hour, then removes the records whose health is zero,
        announcing each death in the event log. */
    method Decay(now: int)
      requires Valid()
      modifies this, drama, endpoints
      ensures Valid()
      ensures Snapshots(old(endpoints)) == DecayedAll(old(Snapshots(endpoints)), now)
      ensures endpoints == Keep(old(endpoints), DecayedAll(old(Snapshots(endpoints)), now))
      ensures forall i :: 0 <= i < |endpoints| ==> endpoints[i].health > 0
      ensures drama.events == PushAll(old(drama.events), Deaths(DecayedAll(old(Snapshots(endpoints)), now), now), MaxEvents)
      ensures UniquePaths(old(endpoints)) ==> UniquePaths(endpoints)
      ensures old(Healthy()) ==> Healthy()
    {
      ghost var s, before, healthy := endpoints, Snapshots(endpoints), Healthy();
      if healthy {
        WellFormedSnapshots(endpoints);
      }
      Sweep(now);
      if healthy {
        SweptWellFormed(before, endpoints, now);
      }
      Cull(now);
      if UniquePaths(s) {
        KeepUnique(s, DecayedAll(before, now));
      }
    }
  }

  // ---------------------------------------------------------------------------
  // Properties of the transitions

  /** A spawned record: full health, zero counters, not evolving, no error,
      and a timeline holding exactly one spawn entry at health 100. */
  lemma SpawnedRecord(path: string, text: string, now: int)
    ensures var r := Spawned(path, text, now);
      r.path == path && r.code == Trim(text) && r.health == 100 && r.uses == 0 && r.failures == 0
      && r.desperation == 0 && !r.isEvolving && r.lastError == None && r.prNumber == None && r.lastUsed == now
      && Entries(r.timeline) == [TimelineEntry(now, SpawnEntry, 100, "Spawned with AI-generated code")]
      && WellFormed(r)
  {
  }

  /** A successful run never lowers health, counts one more use, and leaves
      the failure bookkeeping alone. */
  lemma SuccessfulRun(r: Record, value: string, now: int)
    requires r.health <= 100
    ensures var r' := AfterRun(r, ExecOk(value), now);
      r'.health >= r.health && r'.health == Min(100, r.health + 5) && r'.uses == r.uses + 1
      && r'.failures == r.failures && r'.desperation == r.desperation && r'.lastError == r.lastError
      && r'.path == r.path && r'.code == r.code && r'.isEvolving == r.isEvolving && r'.lastUsed == now
  {
  }

  /** A failed run costs 10 health (never below 0), counts one more failure
      and one more desperation, records the message, and leaves `uses` alone. */
  lemma FailedRun(r: Record, msg: string, now: int)
    requires r.health >= 0
    ensures var r' := AfterRun(r, ExecErr(msg), now);
      0 <= r'.health <= r.health && r'.health == Max(0, r.health - 10)
      && r'.failures == r.failures + 1 && r'.desperation == r.desperation + 1
      && r'.lastError == Some(msg) && r'.uses == r.uses
      && r'.path == r.path && r'.code == r.code && r'.isEvolving == r.isEvolving && r'.lastUsed == now
  {
  }

  /** After a run the newest timeline entry records the outcome with the new
      health, the previous entries follow in order, and at most 20 remain. */
  lemma RunTimeline(r: Record, exec: ExecOutcome, now: int)
    ensures var r' := AfterRun(r, exec, now);
      var t, t' := Entries(r.timeline), Entries(r'.timeline);
      |t'| == Min(|t| + 1, MaxTimeline) && |t'| <= MaxTimeline
      && t'[0] == TimelineEntry(now, if exec.ExecOk? then SuccessEntry else FailureEntry, r'.health,
                                if exec.ExecOk? then "Executed successfully" else exec.message)
      && t'[1..] == t[..Min(|t|, MaxTimeline - 1)]
  {
  }

  /** A beg event is logged exactly when the run failed and left health at 30 or less. */
  lemma BegWhenDying(log: seq<DramaEvent>, path: string, r: Record, exec: ExecOutcome, now: int)
    ensures var r' := AfterRun(r, exec, now);
      var log' := AfterRunLog(log, path, r'.health, exec, now);
      (exec.ExecErr? && r'.health <= 30 ==> log' == Push(log, BegNews(path, r'.health, exec.message, now), MaxEvents))
      && (!(exec.ExecErr? && r'.health <= 30) ==> log' == log)
  {
  }

  /** A healthy store stays healthy when each of its records either keeps
      its value or takes a well-formed one. */
  twostate lemma HealthyAfterRun(st: Store)
    requires unchanged(st) && old(st.Healthy())
    requires forall i :: 0 <= i < |st.endpoints| ==> unchanged(st.endpoints[i]) || WellFormed(st.endpoints[i].Snapshot())
    ensures st.Healthy()
  {
  }

  lemma RunKeepsWellFormed(r: Record, exec: ExecOutcome, now: int)
    requires WellFormed(r)
    ensures WellFormed(AfterRun(r, exec, now))
  {
  }

  /** The decay sweep lowers the health of a record idle for more than an
      hour by 5 per whole idle hour, floored at 0, and prepends one check
      entry; every other record, including one already at health 0, is left
      as it was. Nothing but health and timeline ever changes. */
  lemma DecayedRecord(r: Record, now: int)
    ensures var r' := Decayed(r, now);
      r'.(health := r.health, timeline := r.timeline) == r
      && (now - r.lastUsed > Hour && r.health > 0 ==>
            r'.health == Max(0, r.health - 5 * ((now - r.lastUsed) / Hour))
            && 0 <= r'.health < r.health
            && Entries(r'.timeline)[0].kind == CheckEntry
            && Entries(r'.timeline)[0].health == r'.health
            && Entries(r'.timeline)[1..] == Entries(r.timeline)[..Min(|Entries(r.timeline)|, MaxTimeline - 1)])
      && (!(now - r.lastUsed > Hour && r.health > 0) ==> r' == r)
  {
    var idle := now - r.lastUsed;
    if idle > Hour && r.health > 0 {
      assert idle / Hour >= 1;
    }
  }

  /** Unused for exactly three hours: 15 health lost, floored at 0 (a
      record already at 0 stays there). */
  lemma DecayThreeHours(r: Record, now: int)
    requires now - r.lastUsed == 3 * Hour && r.health >= 0
    ensures Decayed(r, now).health == Max(0, r.health - 15)
  {
    assert (now - r.lastUsed) / Hour == 3;
  }

  lemma DecayKeepsWellFormed(r: Record, now: int)
    requires WellFormed(r)
    ensures WellFormed(Decayed(r, now))
  {
    DecayedRecord(r, now);
  }

  lemma WellFormedSnapshots(s: seq<Endpoint>)
    ensures AllWellFormed(Snapshots(s)) <==> forall i :: 0 <= i < |s| ==> WellFormed(s[i].Snapshot())
  {
    SnapshotsIndex(s);
  }

  lemma AllWellFormedAppend(rs: seq<Record>, r: Record)
    ensures AllWellFormed(rs + [r]) <==> AllWellFormed(rs) && WellFormed(r)
  {
    assert forall i :: 0 <= i < |rs| ==> (rs + [r])[i] == rs[i];
    assert (rs + [r])[|rs|] == r;
  }

  /** Where the sweep stands at position `i`: the record there and the ones
      after it still hold their values from before the sweep. */
  lemma SweepVisits(s: seq<Endpoint>, i: nat, before: seq<Record>)
    requires i < |s| == |before| && Snapshots(s[i..]) == before[i..]
    ensures s[i].Snapshot() == before[i] && Snapshots(s[i + 1..]) == before[i + 1..]
  {
    SnapshotsSplit(s, i);
    assert before[i..][0] == before[i];
    assert before[i + 1..] == before[i..][1..];
  }

  /** Once the record at position `i` holds its value after the sweep, so
      does the whole prefix up to it. */
  lemma SweepAdvances(s: seq<Endpoint>, i: nat, after: seq<Record>)
    requires i < |s| == |after| && Snapshots(s[..i]) == after[..i] && s[i].Snapshot() == after[i]
    ensures Snapshots(s[..i + 1]) == after[..i + 1]
  {
    SnapshotsSplit(s, i);
    assert after[..i + 1] == after[..i] + [after[i]];
  }

  /** Records that hold the decayed values of well-formed records are well-formed. */
  lemma SweptWellFormed(before: seq<Record>, s: seq<Endpoint>, now: int)
    requires AllWellFormed(before) && Snapshots(s) == DecayedAll(before, now)
    ensures forall i :: 0 <= i < |s| ==> WellFormed(s[i].Snapshot())
  {
    DecayedAllWellFormed(before, now);
    WellFormedSnapshots(s);
  }

  lemma DecayedAllWellFormed(rs: seq<Record>, now: int)
    requires AllWellFormed(rs)
    ensures AllWellFormed(DecayedAll(rs, now))
  {
    forall i | 0 <= i < |rs|
      ensures WellFormed(DecayedAll(rs, now)[i])
    {
      DecayKeepsWellFormed(rs[i], now);
    }
  }

  // ---------------------------------------------------------------------------
  // Properties of the removal step

  lemma {:induction false} SurvivorsAppend(a: seq<Endpoint>, b: seq<Endpoint>)
    ensures Survivors(a + b) == Survivors(a) + Survivors(b)
    decreases |b|
  {
    if b == [] {
      assert a + b == a;
    } else {
      var init := b[..|b| - 1];
      assert (a + b)[..|a + b| - 1] == a + init;
      assert (a + b)[|a + b| - 1] == b[|b| - 1];
      SurvivorsAppend(a, init);
    }
  }

  /** Survivors keep their relative order: a surviving record sits right
      after the survivors that stood before it. */
  lemma SurvivorsKeepOrder(s: seq<Endpoint>, i: nat)
    requires i < |s| && s[i].health > 0
    ensures |Survivors(s[..i])| < |Survivors(s)|
    ensures Survivors(s)[|Survivors(s[..i])|] == s[i]
  {
    assert s == s[..i + 1] + s[i + 1..];
    SurvivorsAppend(s[..i + 1], s[i + 1..]);
    assert s[..i + 1][..i] == s[..i];
  }

  /** Every survivor comes from the collection and has positive health; every
      record of positive health survives. */
  lemma {:induction false} SurvivorsShape(s: seq<Endpoint>)
    ensures forall i :: 0 <= i < |Survivors(s)| ==> Survivors(s)[i] in s && Survivors(s)[i].health > 0
    ensures forall i :: 0 <= i < |s| && s[i].health > 0 ==> s[i] in Survivors(s)
    decreases |s|
  {
    if s != [] {
      var init := s[..|s| - 1];
      SurvivorsShape(init);
      assert forall x :: x in init ==> x in s;
      forall i | 0 <= i < |s| && s[i].health > 0
        ensures s[i] in Survivors(s)
      {
        if i < |s| - 1 {
          assert s[i] == init[i];
        }
      }
    }
  }

  /** Every dead record comes from the collection and has health zero; every
      record of health zero is among the dead. */
  lemma {:induction false} DeadShape(s: seq<Endpoint>)
    ensures forall i :: 0 <= i < |Dead(s)| ==> Dead(s)[i] in s && Dead(s)[i].health == 0
    ensures forall i :: 0 <= i < |s| && s[i].health == 0 ==> s[i] in Dead(s)
    decreases |s|
  {
    if s != [] {
      var init := s[..|s| - 1];
      DeadShape(init);
      assert forall x :: x in init ==> x in s;
      forall i | 0 <= i < |s| && s[i].health == 0
        ensures s[i] in Dead(s)
      {
        if i < |s| - 1 {
          assert s[i] == init[i];
        }
      }
    }
  }

  lemma SurvivorsAlive(s: seq<Endpoint>)
    ensures forall i :: 0 <= i < |Survivors(s)| ==> Survivors(s)[i].health > 0
  {
    SurvivorsShape(s);
  }

  /** Filtering keeps the records pairwise distinct. */
  lemma {:induction false} SurvivorsDistinct(s: seq<Endpoint>)
    requires Distinct(s)
    ensures Distinct(Survivors(s))
    decreases |s|
  {
    if s != [] {
      var init, last := s[..|s| - 1], s[|s| - 1];
      SurvivorsDistinct(init);
      if last.health > 0 {
        SurvivorsShape(init);
        assert last !in Survivors(init);
        DistinctAppend(Survivors(init), last);
      }
    }
  }

  /** Filtering keeps the engine's bounds. */
  lemma {:induction false} SurvivorsWellFormed(s: seq<Endpoint>)
    requires AllWellFormed(Snapshots(s))
    ensures AllWellFormed(Snapshots(Survivors(s)))
    decreases |s|
  {
    if s != [] {
      var init, last := s[..|s| - 1], s[|s| - 1];
      assert Snapshots(s) == Snapshots(init) + [last.Snapshot()];
      AllWellFormedAppend(Snapshots(init), last.Snapshot());
      SurvivorsWellFormed(init);
      if last.health > 0 {
        assert Snapshots(Survivors(s)) == Snapshots(Survivors(init)) + [last.Snapshot()] by {
          SnapshotsAppend(Survivors(init), last);
        }
        AllWellFormedAppend(Snapshots(Survivors(init)), last.Snapshot());
      } else {
        assert Survivors(s) == Survivors(init);
      }
    }
  }

  /** When no health is negative, each removed record is a dead one: the
      records that stay and the deaths announced add up to the collection. */
  lemma {:induction false} RemovedAreDead(s: seq<Endpoint>)
    requires forall i :: 0 <= i < |s| ==> s[i].health >= 0
    ensures |Dead(s)| + |Survivors(s)| == |s|
    decreases |s|
  {
    if s != [] {
      RemovedAreDead(s[..|s| - 1]);
    }
  }

  /** Filtering the collection by current health is keeping the records
      whose snapshot has positive health. */
  lemma {:induction false} SurvivorsKept(s: seq<Endpoint>)
    ensures Survivors(s) == Keep(s, Snapshots(s))
    decreases |s|
  {
    if s != [] {
      SurvivorsKept(s[..|s| - 1]);
      assert Snapshots(s)[..|s| - 1] == Snapshots(s[..|s| - 1]);
    }
  }

  /** Announcing the dead records one by one yields the death events of the
      records of health zero. */
  lemma {:induction false} DeathNewsOfDead(s: seq<Endpoint>, now: int)
    ensures DeathNews(Dead(s), now) == Deaths(Snapshots(s), now)
    decreases |s|
  {
    if s != [] {
      var init := s[..|s| - 1];
      DeathNewsOfDead(init, now);
      assert Snapshots(s)[..|s| - 1] == Snapshots(init);
      var d := Dead(init);
      if s[|s| - 1].health == 0 {
        assert Dead(s) == d + [s[|s| - 1]];
        assert (d + [s[|s| - 1]])[..|d|] == d;
      } else {
        assert Dead(s) == d;
      }
    }
  }

  /** When no health is negative, every record is either kept or announced
      dead: one death event per record the filter removes. */
  lemma {:induction false} DeathsPlusKept(s: seq<Endpoint>, rs: seq<Record>, now: int)
    requires |rs| == |s| && forall i :: 0 <= i < |rs| ==> rs[i].health >= 0
    ensures |Deaths(rs, now)| + |Keep(s, rs)| == |s|
    decreases |s|
  {
    if s != [] {
      DeathsPlusKept(s[..|s| - 1], rs[..|s| - 1], now);
    }
  }

  /** Keeping some of the endpoints keeps no others. */
  lemma {:induction false} KeepMembers(s: seq<Endpoint>, rs: seq<Record>)
    requires |rs| == |s|
    ensures forall x :: x in Keep(s, rs) ==> x in s
    decreases |s|
  {
    if s != [] {
      KeepMembers(s[..|s| - 1], rs[..|s| - 1]);
      assert forall x :: x in s[..|s| - 1] ==> x in s;
    }
  }

  /** Keeping some of the endpoints keeps their paths apart. */
  lemma {:induction false} KeepUnique(s: seq<Endpoint>, rs: seq<Record>)
    requires |rs| == |s| && UniquePaths(s)
    ensures UniquePaths(Keep(s, rs))
    decreases |s|
  {
    if s != [] {
      var n := |s| - 1;
      var init := s[..n];
      assert UniquePaths(init);
      KeepUnique(init, rs[..n]);
      KeepMembers(init, rs[..n]);
      var k := Keep(init, rs[..n]);
      if rs[n].health > 0 {
        forall x | x in k
          ensures x.path != s[n].path
        {
          var j :| 0 <= j < n && init[j] == x;
        }
        assert Keep(s, rs) == k + [s[n]];
      }
    }
  }

  /** Appending an endpoint whose path is new keeps the paths apart. */
  lemma UniqueAppend(s: seq<Endpoint>, e: Endpoint)
    requires UniquePaths(s) && IndexOf(s, e.path) == |s|
    ensures UniquePaths(s + [e])
  {
  }

  /** So long as at most 50 records die at once, the newest entries of the
      event log are their death events, one each, the last death first. */
  lemma DeathsAnnounced(log: seq<DramaEvent>, dead: seq<Endpoint>, now: int)
    requires |log| <= MaxEvents && |dead| <= MaxEvents
    ensures var log' := PushAll(log, DeathNews(dead, now), MaxEvents);
      |log'| == Min(MaxEvents, |dead| + |log|)
      && forall i :: 0 <= i < |dead| ==> log'[i] == DeathNote(dead[|dead| - 1 - i].path, now)
  {
    var news := DeathNews(dead, now);
    PushAllFront(log, news, MaxEvents);
    var log' := PushAll(log, news, MaxEvents);
    forall i | 0 <= i < |dead|
      ensures log'[i] == DeathNote(dead[|dead| - 1 - i].path, now)
    {
      assert log'[i] == log'[..|news|][i] == Reversed(news)[i];
    }
  }
}
