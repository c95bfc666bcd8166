# Endpoint lifecycle engine, modelled in Dafny

This project models the lifecycle engine of a small service in which every
HTTP path is served by an "endpoint": a record holding AI-generated code and
its health, use and failure counters, desperation, and a timeline. The
engine keeps a process-wide collection of these records and changes it in four ways:

- **spawn** creates a record from freshly generated code;
- **execute** runs a record's code (spawning it first when the path is new)
  and updates its bookkeeping;
- **decay** takes health from idle records and removes the ones that reach zero;
- **evolve** and **evolveLoop** regenerate the code of struggling records.

All of them report to a bounded, newest-first global event log (the "drama" feed).

The model follows the source file by file:

- `bounded.dfy` (module `Bounded`): clamped arithmetic, plus the
  unshift-then-slice operation that both the timelines and the event log use.
- `text.dfy` (module `Text`): JavaScript's `trim`, the decimal rendering of
  integers inside template literals, and `substring(0, n)`.
- `types.dfy` (module `Types`): the record shape. An endpoint is a heap
  object (`Endpoint`), because the store and the evolution sweep share it by
  reference and update its fields in place. `Record` is the value of its
  fields at one moment, and the transitions are specified on it.
- `drama.dfy` (module `Drama`): the event log as a class `DramaLog`, with its
  capacity invariant of 50.
- `endpoints.dfy` (module `Endpoints`): the store as a class `Store`, which
  owns the sequence of endpoint objects and a reference to the event log.
  Each operation is a method whose postcondition ties the new state to a
  pure function of the old state: for example `e.Snapshot() ==
  AfterRun(old(e.Snapshot()), exec, now)`, or `drama.events ==
  PushAll(old(drama.events), Deaths(...), MaxEvents)`. What each operation
  promises is then proved on those functions as lemmas. The decay loop is
  proved record by record through a per-step method.
- `evolution.dfy` (module `Evolution`): the eligibility predicate, `evolve`
  on one endpoint object, and the sweep `evolveLoop` over the store's shared
  collection.

External effects become arguments:

- The code generator's outcome is a `GenOutcome`: `GenOk(text)` or `GenErr`.
- Running generated code yields an `ExecOutcome`: `ExecOk(value)` or `ExecErr(message)`.
- The clock is an integer `now` in milliseconds.
- The sweep takes one generator outcome per record position. It is consulted
  only for the records the sweep evolves.

Two invariants are carried through the operations:

- `Store.Valid()`: the event log within capacity, and no endpoint object
  appearing twice in the collection.
- `Store.Healthy()`: every record has health in 0..100, non-negative
  counters, and a timeline of at most 21 entries. It is preserved as
  `old(Healthy()) ==> Healthy()`.

`UniquePaths` (no two records share a path) is preserved by `execute` and
`decay`, but not by a direct `spawn`. `spawn` does not look for an existing
record.

A few consequences of the code that the model keeps:

- `uses` counts successful runs only, so `failures` may exceed `uses`, and
  the success count `uses - failures` can be negative.
- `evolve` prepends its timeline entry without truncating, so a timeline can
  hold 21 entries.
- A record whose health a failed run brings to 0 stays in the collection
  until the next decay removes it.
- Spawned code may be empty (`trim` of whatever text came back).

## Model

| member | source | states |
|---|---|---|
| Bounded.Push | src/endpoints.ts:138-148 | unshift then slice to `cap`: the length is `min(|s|+1, cap)`, the new entry comes first, and the older entries follow in order with only the oldest dropped |
| Bounded.PushAll | src/endpoints.ts:216-219 | a batch of `addDrama` calls, first entry first; what it yields is stated by `PushAllNewestFirst`, `PushAllAppend` and `PushAllFront` |
| Bounded.PushAllNewestFirst | src/drama.ts:6-17 | pushing a batch one entry at a time puts the batch, newest first, in front of the log and keeps the first `cap` entries |
| Bounded.PushAllAppend | src/endpoints.ts:216-219 | pushing the batch `xs + ys` is pushing `xs`, then `ys` |
| Bounded.PushAllFront | src/endpoints.ts:216-219 | a batch of at most `cap` entries pushed onto a log within capacity occupies the front of the log, reversed |
| Text.TrimShape | src/endpoints.ts:91 | `trim` returns the slice of its input between a leading and a trailing run of white space, and the result neither starts nor ends with white space |
| Text.Trim | src/endpoints.ts:91 | `String.prototype.trim`; its result is never longer than its input, and `TrimShape` states what it removes |
| Text.NatToStringDigits | src/endpoints.ts:204 | the rendering of a natural number is all decimal digits, with no leading zero |
| Text.NatToStringValue | src/endpoints.ts:204 | the rendering of a natural number consists of decimal digits whose value is that number |
| Text.IntToString | src/evolution.ts:76 | how `${n}` renders an integer inside a template literal (also src/endpoints.ts:175, 204 and src/evolution.ts:79, 110-111): a minus sign for a negative number, then the digits of its magnitude; never empty; `NatToStringValue` states that the digits denote the number |
| Text.Excerpt | src/endpoints.ts:175 | `substring(0, len)` is the prefix of length `min(|msg|, len)` |
| Types.Endpoint.constructor | src/endpoints.ts:89-104 | a new endpoint object holds exactly the fields of the literal it is built from |
| Drama.DramaLog.constructor | src/drama.ts:3 | the log starts empty |
| Drama.DramaLog.AddDrama | src/drama.ts:6-20 | the new log is the old one with the event unshifted and cut back to 50; the log stays within capacity |
| Drama.AddDramaShape | src/drama.ts:7-17 | after `addDrama`: the new event is at index 0, the length is `min(old+1, 50)`, and `log[1..] == old[..min(|old|, 49)]` |
| Drama.DramaLog.GetEvents | src/drama.ts:22-24 | returns the current log, which holds at most 50 events, and changes nothing |
| Drama.DramaLog.ClearEvents | src/drama.ts:26-28 | leaves the log empty |
| Endpoints.IndexOf | src/endpoints.ts:60-62 | the position of the first endpoint with the path: every earlier endpoint has another path, and the length when there is none |
| Endpoints.Survivors | src/endpoints.ts:221 | `endpoints.filter(e => e.health > 0)`: never longer than the collection; `SurvivorsShape`, `SurvivorsKeepOrder` and `SurvivorsDistinct` state which endpoints it keeps and in what order |
| Endpoints.Dead | src/endpoints.ts:215 | `endpoints.filter(e => e.health === 0)`: never longer than the collection; `DeadShape` states which endpoints it keeps |
| Endpoints.Store.constructor | src/endpoints.ts:11 | the store starts with no endpoints |
| Endpoints.Store.GetAll | src/endpoints.ts:55-57 | returns the live collection itself, not a copy; `evolveLoop` obtains the endpoints it mutates through it |
| Endpoints.Store.Get | src/endpoints.ts:60-62 | none exactly when no endpoint has the path; otherwise the first endpoint with that path; changes nothing |
| Endpoints.Store.Spawn | src/endpoints.ts:65-113 | on generated text, appends exactly one fresh endpoint holding `Spawned(path, text, now)` and logs one spawn event; earlier records are untouched; nothing changes when generation throws |
| Endpoints.Spawned | src/endpoints.ts:89-104 | the record literal `spawn` builds; its fields are stated by `SpawnedRecord` |
| Endpoints.SpawnedRecord | src/endpoints.ts:89-104 | a spawned record has health 100, zero uses, failures and desperation, is not evolving, and has a timeline of exactly one spawn entry at health 100 |
| Endpoints.Store.RunOne | src/endpoints.ts:124-180 | the record becomes `AfterRun` of its old value, the log becomes `AfterRunLog`, and the caller gets the value or the re-raised error |
| Endpoints.Store.Run | src/endpoints.ts:124-180 | as `RunOne`, and the store stays healthy |
| Endpoints.AfterRun | src/endpoints.ts:124-172 | the record after a run, on success or on failure; stated by `SuccessfulRun`, `FailedRun`, `RunTimeline` and `RunKeepsWellFormed` |
| Endpoints.AfterRunLog | src/endpoints.ts:174-176 | the event log after a run; when it gains a beg event is stated by `BegWhenDying` |
| Endpoints.Store.Execute | src/endpoints.ts:116-181 | a present path runs the first record with that path and leaves the collection as it was; an absent path spawns then runs, growing the collection by one; a failed spawn changes nothing; no other record changes; unique paths and health bounds are preserved |
| Endpoints.SuccessfulRun | src/endpoints.ts:132-133 | a successful run sets health to `min(100, h+5)` (never lower), adds one use, and leaves failures, desperation and last error unchanged |
| Endpoints.FailedRun | src/endpoints.ts:155-158 | a failed run sets health to `max(0, h-10)`, adds one failure and one desperation, records the message as last error, and leaves uses unchanged |
| Endpoints.RunTimeline | src/endpoints.ts:137-172 | after a run the first timeline entry is `success` or `failure` with the new health, followed by the previous entries in order, at most 20 in all |
| Endpoints.BegWhenDying | src/endpoints.ts:174-176 | a beg event is logged if and only if the run failed and the new health is at most 30 |
| Endpoints.RunKeepsWellFormed | src/endpoints.ts:132-172 | a run keeps health within 0..100, the counters non-negative and the timeline within 21 |
| Endpoints.Store.DecayOne | src/endpoints.ts:189-211 | the record becomes `Decayed` of its old value |
| Endpoints.Decayed | src/endpoints.ts:189-211 | one record after the decay sweep; stated by `DecayedRecord`, `DecayThreeHours` and `DecayKeepsWellFormed` |
| Endpoints.DecayedRecord | src/endpoints.ts:189-211 | a record idle for more than an hour with positive health loses `5 * floor(idle/HOUR)`, floored at 0, and gains one check entry in front of at most 19 older ones; every other record is left exactly as it was; nothing but health and timeline changes |
| Endpoints.DecayThreeHours | src/endpoints.ts:192-197 | three idle hours cost 15 health, floored at 0, for any record of non-negative health |
| Endpoints.DecayKeepsWellFormed | src/endpoints.ts:196-209 | decay keeps a record's bounds |
| Endpoints.DecayedAll | src/endpoints.ts:188-212 | the sweep's values, position by position: record `j` after the sweep is `Decayed` of record `j` |
| Endpoints.DecayedAllWellFormed | src/endpoints.ts:188-212 | the sweep keeps every record's bounds |
| Endpoints.Store.DecayAt | src/endpoints.ts:188-212 | one loop iteration: the record at position `i` takes its decayed value and no other record changes |
| Endpoints.Store.Sweep | src/endpoints.ts:188-212 | after the loop the values of the collection are `DecayedAll` of the values before it |
| Endpoints.Store.Announce | src/endpoints.ts:216-219 | announcing a batch of dead endpoints pushes one death event for each, in order |
| Endpoints.Store.AnnounceDeaths | src/endpoints.ts:215-219 | the log receives `Deaths` of the current values: one death event per record of health zero, in collection order |
| Endpoints.Store.RemoveDead | src/endpoints.ts:221 | the collection keeps exactly the endpoints of positive health, in order; it stays duplicate-free and healthy |
| Endpoints.Store.Cull | src/endpoints.ts:215-221 | death events for the records of health zero, then only the records of positive health remain; the records' values do not change |
| Endpoints.Store.Decay | src/endpoints.ts:184-223 | the values become `DecayedAll` of the old values; the collection keeps, in order, exactly the endpoints whose decayed health is positive, including removing ones already at zero; one death event per removed record; unique paths and bounds are preserved |
| Endpoints.DeathNews | src/endpoints.ts:216-219 | one death event per dead endpoint, in the same order |
| Endpoints.Deaths | src/endpoints.ts:215-219 | the death events `decay` logs, stated on the records' values: one per record of health zero, in collection order; `DeathNewsOfDead` ties it to the filtered dead endpoints |
| Endpoints.Keep | src/endpoints.ts:221 | `filter(e => e.health > 0)` stated on the records' values: never longer than the collection; `SurvivorsKept` ties it to `Survivors`, and `KeepMembers`, `KeepUnique` and `DeathsPlusKept` state what it keeps |
| Endpoints.DeathsPlusKept | src/endpoints.ts:215-221 | when no health is negative, the death events plus the endpoints kept add up to the collection: one death event per removed record |
| Endpoints.SurvivorsShape | src/endpoints.ts:221 | every survivor comes from the collection with positive health, and every record of positive health survives |
| Endpoints.DeadShape | src/endpoints.ts:215 | every dead endpoint comes from the collection with health zero, and every record of health zero is among them |
| Endpoints.SurvivorsKeepOrder | src/endpoints.ts:221 | a surviving record sits right after the survivors that stood before it, so survivors keep their relative order |
| Endpoints.SurvivorsDistinct | src/endpoints.ts:221 | filtering keeps the objects pairwise distinct |
| Endpoints.SurvivorsWellFormed | src/endpoints.ts:221 | filtering keeps every record's bounds |
| Endpoints.SurvivorsKept | src/endpoints.ts:221 | filtering the objects by current health is keeping those whose value has positive health |
| Endpoints.RemovedAreDead | src/endpoints.ts:215-221 | with no negative health, the dead and the survivors add up to the collection: every removed record got a death event |
| Endpoints.DeathNewsOfDead | src/endpoints.ts:215-219 | the events for the filtered dead endpoints are the death events of the records of health zero |
| Endpoints.DeathsAnnounced | src/endpoints.ts:215-219 | when at most 50 records die, the newest log entries are exactly their death events, one each, the last death first |
| Endpoints.KeepMembers | src/endpoints.ts:221 | filtering keeps only endpoints of the collection |
| Endpoints.KeepUnique | src/endpoints.ts:221 | filtering keeps paths unique |
| Evolution.ShouldEvolveCases | src/evolution.test.ts:6-80 | the examples: health 40, uses 10, failures 8 is eligible; health 80 or 2 failures is not; evolving is not; a pull request 123 is not; uses 15, failures 10 is eligible |
| Evolution.ShouldEvolve | src/evolution.ts:11-18 | `shouldEvolve`; its cases are stated by `ShouldEvolveCases`, `EligibleMeansStruggling` and `SpawnedNotEligible` |
| Evolution.EligibleMeansStruggling | src/evolution.ts:11-18 | eligibility needs health below 50, twice the failures above the uses, and not evolving; failing any of these rules it out |
| Evolution.SpawnedNotEligible | src/evolution.ts:11-18 | a freshly spawned record is never eligible |
| Evolution.Evolve | src/evolution.ts:21-86 | the record becomes `Evolved` of its old value; one evolution event is logged when generation succeeded, none otherwise; a generator error does not reach the caller |
| Evolution.Evolved | src/evolution.ts:58-85 | the record after `evolve`; stated by `EvolveSucceeds`, `EvolveFails`, `EvolveKeepsBookkeeping` and `EvolveGrowsTimeline` |
| Evolution.EvolveSucceeds | src/evolution.ts:58-79 | on success: the code is the trimmed text, health is `min(100, h+20)`, not evolving, one evolution entry prepended with no older entry dropped, nothing else changed |
| Evolution.EvolveFails | src/evolution.ts:81-85 | on failure: two more desperation, not evolving, and code, health and timeline unchanged |
| Evolution.EvolveKeepsBookkeeping | src/evolution.ts:21-86 | either way, path, uses, failures, last error, last use and pull request are unchanged |
| Evolution.EvolveGrowsTimeline | src/evolution.ts:71-85 | a successful evolution grows the timeline by exactly one entry and never truncates it; a failed one leaves its length unchanged |
| Evolution.Visit | src/evolution.ts:95-121 | one iteration of the sweep: the record becomes `Visited` of its old value and the log receives `VisitNews` |
| Evolution.Checked | src/evolution.ts:103-117 | a struggling record after the sweep adds its check entry to the timeline; stated by `VisitChecksStruggling` and `CheckNoteWording` |
| Evolution.Visited | src/evolution.ts:96-121 | one record after the sweep visited it; stated by `VisitSkipsHealthy`, `VisitChecksStruggling` and `VisitKeepsWellFormed` |
| Evolution.VisitAt | src/evolution.ts:94-122 | one iteration at position `i`: only that record changes, and the log grows by that record's news |
| Evolution.VisitAll | src/evolution.ts:94-122 | after the loop the values are `VisitedAll` of the old ones, and the log received `SweepNews`, in collection order |
| Evolution.EvolveLoop | src/evolution.ts:89-126 | the same, with the collection itself unchanged (no record added, removed or reordered) and the bounds preserved |
| Evolution.VisitedAll | src/evolution.ts:94-122 | the sweep neither adds nor removes records |
| Evolution.VisitSkipsHealthy | src/evolution.ts:103-121 | a record with health at least 50, or one already evolving, is left exactly as it was, and nothing is logged for it |
| Evolution.VisitChecksStruggling | src/evolution.ts:103-121 | a record below 50 that is not evolving gets one check entry saying whether it is eligible, nothing else changes, and it is evolved exactly when eligible |
| Evolution.CheckNoteWording | src/evolution.ts:109-111 | the check entry's two wordings differ by eligibility |
| Evolution.VisitKeepsWellFormed | src/evolution.ts:103-121 | the check truncates to 20 before evolution adds one, so a visited record keeps its bounds, including a timeline of at most 21 |
| Evolution.VisitedAllWellFormed | src/evolution.ts:94-122 | the sweep keeps every record's bounds |
| Evolution.SweepNewsAreEvolutions | src/evolution.ts:79 | every event the sweep logs is an evolution event, at most one per record |

## Left out

- Loading and saving the collection (`loadEndpoints`, `save`, the `Bun.write` after the sweep): file I/O and JSON.
- ExecOutcome: generated code is assumed to throw an `Error`-like object with a string `message`. A thrown string or other value without `message` would leave `lastError` and the failure entry's message undefined (src/endpoints.ts:158, 167), and at health 30 or less `error.message.substring(0, 60)` (src/endpoints.ts:175) would throw inside the `catch`, so there would be no beg event and no `save`, and the caller would get that TypeError. A thrown `null` or `undefined` would throw at src/endpoints.ts:158 after health, failures and desperation had changed. None of these cases is modelled.
- Failure of `save`: the model assumes it always succeeds. In the source a failing `save` inside `execute`'s `try` (src/endpoints.ts:150) would run the failure bookkeeping on top of the success updates and throw, and one in `spawn` (src/endpoints.ts:107) would skip the spawn event.
- `loadActions` and the action registry: module loading through `require`. The registry only reaches the prompt text and the generated code.
- The calls to the code generator: a network call, replaced by a `GenOutcome` argument. The prompt text is not modelled.
- Running generated code with `new Function`: dynamic evaluation, replaced by an `ExecOutcome` argument.
- `Date` and `Date.now()`: timestamps are integer milliseconds passed in. Dates are never read back except as `lastUsed`.
- `console.log` and `console.error` output.
- Interleaving at `await` points: every operation is atomic. For example, a concurrent observer never sees `isEvolving` set while the generator runs.
- Aliasing: the model assumes no endpoint object appears twice in the collection (`Store.Valid`). No operation of the core can create such a duplicate.
- A `NaN` pull-request number (falsy in JavaScript): pull-request numbers are integers, and only absence and 0 count as "none".
- Non-integer or very large numbers inside messages: JavaScript number formatting is modelled for integers only.
- String length and `substring`/`trim` count characters, not UTF-16 code units.
- The sweep over the store takes its generator outcomes as a sequence indexed by position, fixed before the sweep starts; a generator whose answer depends on earlier answers is not modelled.
- `server.ts` (the HTTP server) and the dashboard in `client/src/App.tsx`: outside the engine. What calls `decay` and `evolveLoop`, and when, is not part of this model.
