/** The evolution engine: the eligibility rule, regeneration of one
    endpoint's code, and the periodic sweep that logs a check for every
    struggling endpoint and evolves the eligible ones. The code generator is
    outside the model; its outcome for each record arrives as an argument. */
module Evolution {
  import opened Bounded
  import opened Text
  import opened Types
  import opened Drama
  import opened Endpoints

  /** `!endpoint.prNumber`: no pull-request number, or the number 0. */
  predicate NoPullRequest(p: Option<int>) {
    p.None? || p.value == 0
  }

  /** `shouldEvolve`: low health, more failures than successes (a success
      being a use that did not fail), not evolving already, and no open pull
      request. */
  predicate ShouldEvolve(r: Record) {
    r.health < 50 && r.failures > r.uses - r.failures && !r.isEvolving && NoPullRequest(r.prNumber)
  }

  // ---------------------------------------------------------------------------
  // Evolving one record

  function EvolutionNote(health: int): string {
    "Evolved by Claude AI. Health restored to " + IntToString(health) + "%"
  }

  function EvolutionNews(path: string, health: int, now: int): DramaEvent {
    DramaEvent(now, EvolutionEvent, path, path + " evolved! Health restored to " + IntToString(health) + "%")
  }

  /** The record after `evolve` with generator outcome `gen`: on success the
      trimmed new code, 20 health back (at most 100) and an evolution entry in
      front of the timeline, which is not cut back; on failure two more
      desperation. Either way the record is no longer evolving. */
  function Evolved(r: Record, gen: GenOutcome, now: int): Record {
    match gen
    case GenOk(text) =>
      var h := Min(100, r.health + 20);
      r.(code := Trim(text), health := h, isEvolving := false,
         timeline := Some([TimelineEntry(now, EvolutionEntry, h, EvolutionNote(h))] + Entries(r.timeline)))
    case GenErr =>
      r.(isEvolving := false, desperation := r.desperation + 2)
  }

  /** The events `evolve` logs for `r`: one when generation succeeded. */
  function EvolveNews(r: Record, gen: GenOutcome, now: int): seq<DramaEvent> {
    if gen.GenOk? then [EvolutionNews(r.path, Min(100, r.health + 20), now)] else []
  }

  /** Regenerates the code of `e`. The record is marked as evolving while the
      generator runs, and unmarked whatever its outcome. */
  method Evolve(e: Endpoint, log: DramaLog, gen: GenOutcome, now: int)
    requires log.Valid()
    modifies e, log
    ensures log.Valid()
    ensures e.Snapshot() == Evolved(old(e.Snapshot()), gen, now)
    ensures log.events == PushAll(old(log.events), EvolveNews(old(e.Snapshot()), gen, now), MaxEvents)
  {
    e.isEvolving := true;
    match gen {
      case GenOk(text) =>
        e.code := Trim(text);
        e.health := Min(100, e.health + 20);
        e.isEvolving := false;
        e.timeline := Some([TimelineEntry(now, EvolutionEntry, e.health, EvolutionNote(e.health))] + Entries(e.timeline));
        log.AddDrama(EvolutionEvent, e.path, EvolutionNews(e.path, e.health, now).message, now);
      case GenErr =>
        e.isEvolving := false;
        e.desperation := e.desperation + 2;
    }
  }

  // ---------------------------------------------------------------------------
  // The evolution sweep

  /** The message of the check entry, which says whether `r` is eligible. */
  function CheckNote(r: Record, eligible: bool): string {
    if eligible then
      "Evolution criteria met: health=" + IntToString(r.health) + "%, failures=" + IntToString(r.failures)
      + " > successes=" + IntToString(r.uses - r.failures)
    else
      "Checked for evolution: Not eligible yet (health=" + IntToString(r.health) + "%, failures="
      + IntToString(r.failures) + ", successes=" + IntToString(r.uses - r.failures) + ")"
  }

  /** A record below 50 health that is not evolving gets a check entry. */
  function Checked(r: Record, now: int): Record {
    if r.health < 50 && !r.isEvolving then
      r.(timeline := Some(Push(Entries(r.timeline), TimelineEntry(now, CheckEntry, r.health, CheckNote(r, ShouldEvolve(r))), MaxTimeline)))
    else r
  }

  /** The record after the sweep visited it: checked, then evolved when it was eligible. */
  function Visited(r: Record, gen: GenOutcome, now: int): Record {
    if ShouldEvolve(r) then Evolved(Checked(r, now), gen, now) else Checked(r, now)
  }

  /** The events the sweep logs while visiting `r`. */
  function VisitNews(r: Record, gen: GenOutcome, now: int): seq<DramaEvent> {
    if ShouldEvolve(r) then EvolveNews(r, gen, now) else []
  }

  /** Every record after the sweep; `gens[i]` is the generator's outcome
      for record `i`, and record `i` is visited with its own outcome. */
  function VisitedAll(rs: seq<Record>, gens: seq<GenOutcome>, now: int): (r: seq<Record>)
    requires |gens| == |rs|
    ensures |r| == |rs|
  {
    seq(|rs|, i requires 0 <= i < |rs| => Visited(rs[i], gens[i], now))
  }

  /** All events the sweep logs, in the order it logs them. */
  function SweepNews(rs: seq<Record>, gens: seq<GenOutcome>, now: int): seq<DramaEvent>
    requires |gens| == |rs|
    decreases |rs|
  {
    if rs == [] then []
    else SweepNews(rs[..|rs| - 1], gens[..|rs| - 1], now) + VisitNews(rs[|rs| - 1], gens[|rs| - 1], now)
  }

  /** The body of the sweep for one record. */
  method Visit(e: Endpoint, log: DramaLog, gen: GenOutcome, now: int)
    requires log.Valid()
    modifies e, log
    ensures log.Valid()
    ensures e.Snapshot() == Visited(old(e.Snapshot()), gen, now)
    ensures log.events == PushAll(old(log.events), VisitNews(old(e.Snapshot()), gen, now), MaxEvents)
  {
    var eligible := ShouldEvolve(e.Snapshot());
    if e.health < 50 && !e.isEvolving {
      e.timeline := Some(Push(Entries(e.timeline), TimelineEntry(now, CheckEntry, e.health, CheckNote(e.Snapshot(), eligible)), MaxTimeline));
    }
    if eligible {
      Evolve(e, log, gen, now);
    }
  }

  /** One step of the sweep: the record at position `i` of `s` is visited
      and no other record changes. `before` and `after` are the values of the
      whole collection before and after the sweep, `start` the log before it. */
  method VisitAt(s: seq<Endpoint>, log: DramaLog, i: nat, gens: seq<GenOutcome>, now: int,
                 ghost before: seq<Record>, ghost after: seq<Record>, ghost start: seq<DramaEvent>)
    requires log.Valid() && Distinct(s) && i < |s| == |before| == |gens| && after == VisitedAll(before, gens, now)
    requires Snapshots(s[..i]) == after[..i] && Snapshots(s[i..]) == before[i..]
    requires log.events == PushAll(start, SweepNews(before[..i], gens[..i], now), MaxEvents)
    modifies s[i], log
    ensures log.Valid()
    ensures Snapshots(s[..i + 1]) == after[..i + 1]
    ensures Snapshots(s[i + 1..]) == before[i + 1..]
    ensures log.events == PushAll(start, SweepNews(before[..i + 1], gens[..i + 1], now), MaxEvents)
  {
    SweepVisits(s, i, before);
    Visit(s[i], log, gens[i], now);
    SnapshotsFramed(s[..i]);
    SnapshotsFramed(s[i + 1..]);
    SweepAdvances(s, i, after);
    SweepNewsStep(before, gens, i, now);
    PushAllAppend(start, SweepNews(before[..i], gens[..i], now), VisitNews(before[i], gens[i], now), MaxEvents);
  }

  /** The loop of `evolveLoop`: visits every record of the store in order. */
  method VisitAll(store: Store, gens: seq<GenOutcome>, now: int)
    requires store.Valid() && |gens| == |store.endpoints|
    modifies store.endpoints, store.drama
    ensures store.Valid()
    ensures Snapshots(store.endpoints) == VisitedAll(old(Snapshots(store.endpoints)), gens, now)
    ensures store.drama.events == PushAll(old(store.drama.events), SweepNews(old(Snapshots(store.endpoints)), gens, now), MaxEvents)
  {
    var s, log := store.GetAll(), store.drama;
    ghost var before, start := Snapshots(s), log.events;
    ghost var after := VisitedAll(before, gens, now);
    var i := 0;
    while i < |s|
      invariant 0 <= i <= |s| && log.Valid()
      invariant Snapshots(s[..i]) == after[..i]
      invariant Snapshots(s[i..]) == before[i..]
      invariant log.events == PushAll(start, SweepNews(before[..i], gens[..i], now), MaxEvents)
    {
      VisitAt(s, log, i, gens, now, before, after, start);
      i := i + 1;
    }
    assert s[..i] == s;
    assert before[..i] == before;
    assert gens[..i] == gens;
  }

  /** `evolveLoop`: logs a check entry for each struggling record and evolves
      each eligible one, keeping every record within the engine's bounds. */
  method EvolveLoop(store: Store, gens: seq<GenOutcome>, now: int)
    requires store.Valid() && |gens| == |store.endpoints|
    modifies store.endpoints, store.drama
    ensures store.Valid()
    ensures Snapshots(store.endpoints) == VisitedAll(old(Snapshots(store.endpoints)), gens, now)
    ensures store.drama.events == PushAll(old(store.drama.events), SweepNews(old(Snapshots(store.endpoints)), gens, now), MaxEvents)
    ensures store.endpoints == old(store.endpoints)
    ensures old(store.Healthy()) ==> store.Healthy()
  {
    ghost var before, healthy := Snapshots(store.endpoints), store.Healthy();
    if healthy {
      WellFormedSnapshots(store.endpoints);
    }
    VisitAll(store, gens, now);
    if healthy {
      VisitedAllWellFormed(before, gens, now);
      WellFormedSnapshots(store.endpoints);
    }
  }

  // ---------------------------------------------------------------------------
  // Properties

  /** The eligibility cases the module's own examples pin down. */
  lemma ShouldEvolveCases(path: string, code: string, now: int)
    ensures var r := Record(path, code, 40, 10, 8, None, now, false, None, 5, None);
      ShouldEvolve(r)
      && !ShouldEvolve(r.(health := 80, failures := 2, desperation := 0))
      && !ShouldEvolve(r.(failures := 2, desperation := 0))
      && !ShouldEvolve(r.(isEvolving := true))
      && !ShouldEvolve(r.(prNumber := Some(123)))
      && ShouldEvolve(r.(uses := 15, failures := 10))
  {
  }

  /** Evolution needs more failed than successful uses: twice the failures
      exceed the uses. A freshly spawned record is never eligible. */
  lemma EligibleMeansStruggling(r: Record)
    ensures ShouldEvolve(r) ==> r.health < 50 && 2 * r.failures > r.uses && !r.isEvolving
    ensures r.health >= 50 || r.isEvolving || 2 * r.failures <= r.uses ==> !ShouldEvolve(r)
  {
  }

  lemma SpawnedNotEligible(path: string, text: string, now: int)
    ensures !ShouldEvolve(Spawned(path, text, now))
  {
  }

  /** A successful evolution installs the trimmed code, restores 20 health up
      to 100, puts an evolution entry in front of the timeline without
      dropping any older entry, and changes nothing else. */
  lemma EvolveSucceeds(r: Record, text: string, now: int)
    requires r.health <= 100
    ensures var r' := Evolved(r, GenOk(text), now);
      r'.code == Trim(text) && r'.health == Min(100, r.health + 20) && r'.health >= r.health
      && (r.health < 100 ==> r'.health > r.health)
      && !r'.isEvolving
      && Entries(r'.timeline)[0] == TimelineEntry(now, EvolutionEntry, r'.health, EvolutionNote(r'.health))
      && Entries(r'.timeline)[1..] == Entries(r.timeline)
      && r'.(code := r.code, health := r.health, isEvolving := r.isEvolving, timeline := r.timeline) == r
  {
    var t := Entries(Evolved(r, GenOk(text), now).timeline);
    assert t[1..] == Entries(r.timeline);
  }

  /** A failed evolution adds two desperation, ends the evolving state, and
      changes nothing else. */
  lemma EvolveFails(r: Record, now: int)
    ensures var r' := Evolved(r, GenErr, now);
      r'.desperation == r.desperation + 2 && !r'.isEvolving
      && r'.(desperation := r.desperation, isEvolving := r.isEvolving) == r
  {
  }

  /** Evolution never changes the path, use and failure counters, last
      error, last use or pull-request number. */
  lemma EvolveKeepsBookkeeping(r: Record, gen: GenOutcome, now: int)
    ensures var r' := Evolved(r, gen, now);
      r'.path == r.path && r'.uses == r.uses && r'.failures == r.failures && r'.lastError == r.lastError
      && r'.lastUsed == r.lastUsed && r'.prNumber == r.prNumber
  {
  }

  /** Evolution never cuts the timeline back: a successful one grows it by
      exactly one entry, a failed one leaves it as it was. */
  lemma EvolveGrowsTimeline(r: Record, gen: GenOutcome, now: int)
    ensures |Entries(Evolved(r, gen, now).timeline)| == |Entries(r.timeline)| + (if gen.GenOk? then 1 else 0)
  {
  }

  /** A record at 50 health or more, or one already evolving, is left exactly
      as it was, and nothing is logged for it. */
  lemma VisitSkipsHealthy(r: Record, gen: GenOutcome, now: int)
    requires r.health >= 50 || r.isEvolving
    ensures Visited(r, gen, now) == r && VisitNews(r, gen, now) == []
  {
  }

  /** A struggling record that is not evolving gets a check entry that says
      whether it is eligible; it is evolved exactly when it is eligible. */
  lemma VisitChecksStruggling(r: Record, gen: GenOutcome, now: int)
    requires r.health < 50 && !r.isEvolving
    ensures var c := Checked(r, now);
      Entries(c.timeline)[0] == TimelineEntry(now, CheckEntry, r.health, CheckNote(r, ShouldEvolve(r)))
      && c.(timeline := r.timeline) == r
      && (ShouldEvolve(r) ==> Visited(r, gen, now) == Evolved(c, gen, now))
      && (!ShouldEvolve(r) ==> Visited(r, gen, now) == c && VisitNews(r, gen, now) == [])
  {
  }

  /** The check entry is worded by eligibility: the two wordings differ. */
  lemma CheckNoteWording(r: Record)
    ensures CheckNote(r, true)[..22] == "Evolution criteria met"
    ensures CheckNote(r, false)[..22] == "Checked for evolution:"
  {
  }

  /** The sweep keeps the engine's bounds: a record it evolves was first
      checked, which cut its timeline back to 20 entries, so the one entry
      evolution adds makes at most 21. */
  lemma VisitKeepsWellFormed(r: Record, gen: GenOutcome, now: int)
    requires WellFormed(r)
    ensures WellFormed(Visited(r, gen, now))
  {
    if ShouldEvolve(r) {
      var c := Checked(r, now);
      assert |Entries(c.timeline)| <= MaxTimeline;
    }
  }

  lemma VisitedAllWellFormed(rs: seq<Record>, gens: seq<GenOutcome>, now: int)
    requires |gens| == |rs| && AllWellFormed(rs)
    ensures AllWellFormed(VisitedAll(rs, gens, now))
  {
    forall i | 0 <= i < |rs|
      ensures WellFormed(VisitedAll(rs, gens, now)[i])
    {
      VisitKeepsWellFormed(rs[i], gens[i], now);
    }
  }

  lemma SweepNewsStep(rs: seq<Record>, gens: seq<GenOutcome>, i: nat, now: int)
    requires i < |rs| == |gens|
    ensures SweepNews(rs[..i + 1], gens[..i + 1], now) == SweepNews(rs[..i], gens[..i], now) + VisitNews(rs[i], gens[i], now)
  {
    assert rs[..i + 1][..i] == rs[..i];
    assert gens[..i + 1][..i] == gens[..i];
  }

  /** Every event the sweep logs is an evolution event of an eligible record
      whose generation succeeded, at most one per record. */
  lemma {:induction false} SweepNewsAreEvolutions(rs: seq<Record>, gens: seq<GenOutcome>, now: int)
    requires |gens| == |rs|
    ensures |SweepNews(rs, gens, now)| <= |rs|
    ensures forall k :: 0 <= k < |SweepNews(rs, gens, now)| ==> SweepNews(rs, gens, now)[k].kind == EvolutionEvent
    decreases |rs|
  {
    if rs != [] {
      SweepNewsAreEvolutions(rs[..|rs| - 1], gens[..|rs| - 1], now);
    }
  }
}
