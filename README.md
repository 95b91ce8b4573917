# A verified model of the LifeGameController rules engine

This project models the rules engine of `UdonSharp/LifeGameController.cs` in Dafny. The engine is a text life simulation. A life:

- starts with a reset attribute vector and an optional inherited talent;
- splits a point budget over four attributes;
- draws ten distinct candidate talents and acquires the inherited one and the first three;
- advances one year at a time until LIF drops to zero or below.

In each year the new age's talents are granted, and one event is chosen by a filtered weighted draw. The chosen event:

- is marked triggered;
- applies its effect;
- logs its description;
- follows the first branch whose condition holds, or otherwise logs its post text.

The model has two layers.

- **The pure layer** holds datatypes, functions and lemmas. `World` is the state of a life:
  - the attributes;
  - the active talent ids;
  - the triggered event ids;
  - the log;
  - the number of random draws consumed.

  Each operation is a function on `World`, for example `Simulation.Added`, `Simulation.ChosenEvent`, `Simulation.RanEvent`, `Simulation.AdvancedYear` and `Simulation.BegunLife`. The lemmas prove what the engine promises about those functions.
- **The imperative layer** holds classes shaped like the source's objects:
  - `Effects.PropertyState`, with one field per attribute;
  - the two ledgers `Ledgers.TalentRuntimeState` and `Ledgers.EventRuntimeState`, each a fixed array plus a count;
  - `RandomSource.Random`;
  - `Controller.LifeGameController`.

  Each method changes the fields in place with the source's loops, and is proved to leave `State()` equal to the corresponding function of the old state.

Modules, one file each:

| file | module | contents |
|---|---|---|
| `wrappers.dfy` | `Wrappers` | `Option` |
| `random.dfy` | `RandomSource` | the injected random stream; `Next(lo, hi)` yields a value in [lo, hi) and consumes one position |
| `effects.dfy` | `Effects` | `PropertyEffect`, `HasAnyEffect`, `Get`, `Applied`, and the class `PropertyState` |
| `ledgers.dfy` | `Ledgers` | the bounded, duplicate-free insert `Inserted`, `ContainsAny`, and the two ledger classes |
| `conditions.dfy` | `Conditions` | single conditions and ALL-then-ANY groups |
| `catalogue.dfy` | `Catalogue` | the definitions, the `Find*` lookups, and the grade buckets of `BuildLookups` |
| `simulation.dfy` | `Simulation` | the run logic as functions of `World`, and its lemmas |
| `controller.dfy` | `Controller` | the class `LifeGameController` |

The random source is a parameter: a stream `raw: nat -> int` and a position. A draw for [lo, hi) takes the raw value when it lies in the range, and lo otherwise. Every call of `System.Random.Next` or `NextDouble` in the source consumes one position, in the source's order.

The source has three unbounded loops. The model bounds each with a `Fuel` field, and a run that hits the bound reports `FuelExhausted` or `DepthExhausted`:

- the rejection loop that draws candidates;
- the `while (LIF > 0)` year loop;
- the branch recursion of `RunEvent`.

One null dereference of the source is modelled as an outcome: the one that an empty talent catalogue causes in the candidate loop, reported as `NullDereference`. The other crashes of the source are outside the model (see "Left out").

Two quirks of the code are modelled as written:

- The controller's `AddTalent` adds `statusBonus` even when the ledger already holds the id (`Simulation.AddedPaysBonusAgain`).
- The inherited id is inserted straight into the ledger, past every exclusivity check (`Simulation.InheritedStaysActive`).

A life with an empty talent catalogue never reaches its events. The first candidate draw yields no talent, and the second draw's duplicate scan reads that missing talent's id. The model makes this the `NullDereference` outcome (`Simulation.EmptyCatalogueDereferencesNull`, `Simulation.NoTalentsNoLife`). This follows the code rather than a reading in which such a life runs its events.

## Model

| member | source | states |
|---|---|---|
| RandomSource.Draw | UdonSharp/LifeGameController.cs:528 | a draw for [lo, hi) lies in [lo, hi), and is the stream's value whenever that value is in range |
| RandomSource.Random.Next | UdonSharp/LifeGameController.cs:528 | `Next(lo, hi)` returns a value in [lo, hi), the draw at the current position, and advances the position by exactly one |
| Effects.Get | UdonSharp/LifeGameController.cs:67-81 | the attribute a key names; with `Effects.GetDetermines` as its partner |
| Effects.GetDetermines | UdonSharp/LifeGameController.cs:67-81 | each of the eight keys reads its own attribute: two vectors agree on every key exactly when they differ at most in TMS, which has no key |
| Effects.HasAnyEffect | UdonSharp/LifeGameController.cs:34-38 | a payload has an effect exactly when some one of its nine fields is non-zero |
| Effects.BonusSlot | UdonSharp/LifeGameController.cs:101-120 | the bonus attribute chosen by the roll is always one of CHR, INT, STR, MNY and SPR |
| Effects.Applied | UdonSharp/LifeGameController.cs:83-121 | a missing payload, or one without effect, leaves the attributes unchanged; TMS is never changed |
| Effects.AppliedSound | UdonSharp/LifeGameController.cs:83-121 | for a payload with effect, every attribute grows by exactly its delta, plus the bonus for the attribute the roll selects; AGE, LIF and TOTAL never receive the bonus |
| Effects.BonusPaidOnce | UdonSharp/LifeGameController.cs:101-120 | the five bonus attributes together grow by their deltas plus the bonus once, not once per attribute |
| Effects.PropertyState.constructor | UdonSharp/LifeGameController.cs:44-52 | a new vector holds the initial values 0, 0, 0, 0, 5, -1, 1, 20, 1 |
| Effects.PropertyState.Reset | UdonSharp/LifeGameController.cs:54-65 | Reset restores exactly the initial values |
| Effects.PropertyState.Apply | UdonSharp/LifeGameController.cs:83-121 | the new vector is `Applied` of the old one; exactly one draw is consumed when the payload has effect and a non-zero bonus, and none otherwise |
| Ledgers.Inserted | UdonSharp/LifeGameController.cs:346-354 | inserting a present id changes nothing; the id is present afterwards unless the ledger was full; the size stays within the capacity; old contents are a prefix of the new; distinct ids stay distinct |
| Ledgers.InsertedOnly | UdonSharp/LifeGameController.cs:346-354 | an id is in the ledger after the insert exactly when it was there before, or it is the inserted id and there was room |
| Ledgers.ContainsAny | UdonSharp/LifeGameController.cs:289-305 | an empty id list is never contained |
| Ledgers.AnyFromSound | UdonSharp/LifeGameController.cs:296-304 | the scan from position i holds exactly when some id from position i on is in the ledger |
| Ledgers.ContainsAnySound | UdonSharp/LifeGameController.cs:380-396 | `ContainsAny` holds exactly when some listed id is in the ledger |
| Ledgers.TalentRuntimeState.constructor | UdonSharp/LifeGameController.cs:269-281 | a new ledger has two empty lists of capacity 32 |
| Ledgers.TalentRuntimeState.Reset | UdonSharp/LifeGameController.cs:283-287 | Reset empties the active and the triggered lists, so `Contains` is false for every id |
| Ledgers.TalentRuntimeState.Contains | UdonSharp/LifeGameController.cs:307-318 | the scan holds exactly when the id is among the active ids |
| Ledgers.TalentRuntimeState.IsTriggered | UdonSharp/LifeGameController.cs:320-331 | the scan holds exactly when the id is among the triggered ids |
| Ledgers.TalentRuntimeState.MarkTriggered | UdonSharp/LifeGameController.cs:333-344 | the triggered list becomes `Inserted(old, 32, id)`; the active list is unchanged |
| Ledgers.TalentRuntimeState.AddTalent | UdonSharp/LifeGameController.cs:346-354 | the active list becomes `Inserted(old, 32, id)`; the triggered list is unchanged |
| Ledgers.EventRuntimeState.constructor | UdonSharp/LifeGameController.cs:367-373 | a new event ledger is empty, with capacity 256 |
| Ledgers.EventRuntimeState.Reset | UdonSharp/LifeGameController.cs:375-378 | Reset empties the ledger |
| Ledgers.EventRuntimeState.Contains | UdonSharp/LifeGameController.cs:398-409 | the scan holds exactly when the id is among the triggered events |
| Ledgers.EventRuntimeState.MarkTriggered | UdonSharp/LifeGameController.cs:411-419 | the ledger becomes `Inserted(old, 256, id)` |
| Conditions.Evaluate | UdonSharp/LifeGameController.cs:147-177 | mode None always holds; HasTalent and HasEvent fail on an empty list; NotHasTalent and NotHasEvent hold on an empty list |
| Conditions.EvaluateSound | UdonSharp/LifeGameController.cs:165-172 | HasTalent and HasEvent hold exactly when some listed id is in the ledger; NotHasTalent and NotHasEvent hold exactly when none is |
| Conditions.OppositeNegates | UdonSharp/LifeGameController.cs:153-172 | each comparison and each has/has-not mode is the exact negation of its partner |
| Conditions.AllFromSound | UdonSharp/LifeGameController.cs:187-196 | the ALL loop from position i succeeds exactly when every predicate from i on holds |
| Conditions.AnyFromSound | UdonSharp/LifeGameController.cs:198-209 | the ANY loop from position i succeeds exactly when some predicate from i on holds |
| Conditions.EvaluateGroup | UdonSharp/LifeGameController.cs:185-212 | a group with no predicates holds |
| Conditions.EvaluateGroupSound | UdonSharp/LifeGameController.cs:185-212 | a group holds exactly when every ALL predicate holds and the ANY list is empty or one of its predicates holds |
| Catalogue.FirstIndex | UdonSharp/LifeGameController.cs:687-698 | the index found is the first occurrence of the key; none exactly when the key is absent |
| Catalogue.FindTalent | UdonSharp/LifeGameController.cs:687-698 | a found talent has the requested id |
| Catalogue.FindTalentSound | UdonSharp/LifeGameController.cs:687-698 | none exactly when no talent has the id; otherwise the first talent with it |
| Catalogue.FindEvent | UdonSharp/LifeGameController.cs:700-711 | a found event has the requested id |
| Catalogue.FindEventSound | UdonSharp/LifeGameController.cs:700-711 | none exactly when no event has the id; otherwise the first event with it |
| Catalogue.FindAgeDefinition | UdonSharp/LifeGameController.cs:674-685 | a found entry is for the requested age |
| Catalogue.FindAgeDefinitionSound | UdonSharp/LifeGameController.cs:674-685 | none exactly when no entry has the age; otherwise the first entry with it |
| Catalogue.GradeBucket | UdonSharp/LifeGameController.cs:473-481 | every talent in a grade's bucket has that grade, and the bucket is no longer than the catalogue |
| Catalogue.BucketMembers | UdonSharp/LifeGameController.cs:473-481 | a talent is in a grade's bucket exactly when it is in the catalogue with that grade |
| Catalogue.GradeCountOf | UdonSharp/LifeGameController.cs:464-471 | the counting pass yields exactly the size of the bucket the filling pass fills |
| Catalogue.BucketsPartition | UdonSharp/LifeGameController.cs:458-485 | the sizes of the four buckets plus the number of talents with a grade outside 0..3 add up to the size of the catalogue |
| Simulation.Appended | UdonSharp/LifeGameController.cs:802-817 | the log after AppendLog: unchanged for empty text, the text itself for an empty log, otherwise the log, a newline and the text; its properties are `AppendedExtends` and `AppendedAllJoins` |
| Simulation.AppendedAllJoins | UdonSharp/LifeGameController.cs:802-817 | appending non-empty texts to an empty log yields those texts joined by newlines |
| Simulation.AppendedExtends | UdonSharp/LifeGameController.cs:802-817 | the old log is a prefix of the new one; an empty text leaves the log unchanged |
| Simulation.RoundBudget | UdonSharp/LifeGameController.cs:525-535 | each round takes a value in 0..10 from the budget; the budget stays non-negative and values plus budget are conserved |
| Simulation.AllocateRoundsBudget | UdonSharp/LifeGameController.cs:520-538 | after i rounds every value is in 0..10, the remainder is non-negative, and values plus remainder sum to max(total, 0) |
| Simulation.Allocate | UdonSharp/LifeGameController.cs:520-543 | the three rounds of AllocateInitialProperties, yielding three values; their bounds and sum are `AllocateSound` |
| Simulation.AllocateSound | UdonSharp/LifeGameController.cs:520-543 | CHR, INT and STR are each in 0..10, MNY (the remainder) is non-negative, and the four sum exactly to max(total, 0) |
| Simulation.Added | UdonSharp/LifeGameController.cs:616-636 | the state after the controller's AddTalent; its properties are `AddedBlocked`, `AddedPaysBonusAgain`, `AddedAllOnlyTalentsAndTotal` and `ExclusiveStaysOut` |
| Simulation.AddedBlocked | UdonSharp/LifeGameController.cs:623-632 | a talent whose exclusive list names an active id changes neither the ledger nor Total |
| Simulation.AddedPaysBonusAgain | UdonSharp/LifeGameController.cs:634-635 | acquiring an already active, unblocked talent leaves the ledger unchanged but still adds its status bonus to Total |
| Simulation.AddedAllOnlyTalentsAndTotal | UdonSharp/LifeGameController.cs:616-636 | acquiring talents changes only the active ledger, which only grows, and Total |
| Simulation.ExclusiveStaysOut | UdonSharp/LifeGameController.cs:616-636 | once an id is active, no talent whose exclusive list names it becomes active through AddTalent |
| Simulation.GradeOf | UdonSharp/LifeGameController.cs:586-604 | the grade is 3 for a roll up to 0.001, 2 up to 0.011, 1 up to 0.111 and 0 above; the grade loop never runs off the table |
| Simulation.PickTalent | UdonSharp/LifeGameController.cs:584-614 | the talent PickRandomTalent returns and the new draw position; its properties are `PickTalentSound` |
| Simulation.PickTalentSound | UdonSharp/LifeGameController.cs:584-614 | the pick is a talent of the catalogue exactly when the catalogue is not empty; it has the rolled grade whenever that grade's bucket is not empty; one or two draws are consumed |
| Simulation.ScanFromSound | UdonSharp/LifeGameController.cs:553-560 | the scan reports "unseen" exactly when every candidate and the talent are present with different ids; "seen" only when some candidate shares the id; "null" only when a candidate or the talent is missing |
| Simulation.Gather | UdonSharp/LifeGameController.cs:548-567 | the candidate loop: candidates, draw position and outcome; its properties are `GatherDistinct`, `GatherFromCatalogue` and `EmptyCatalogueDereferencesNull` |
| Simulation.GatherDistinct | UdonSharp/LifeGameController.cs:548-567 | a completed candidate loop holds exactly ten present talents with pairwise distinct ids |
| Simulation.GatherFromCatalogue | UdonSharp/LifeGameController.cs:548-567 | every candidate the loop gathers is a talent of the catalogue |
| Simulation.EmptyCatalogueDereferencesNull | UdonSharp/LifeGameController.cs:551-566 | with no talents the candidate loop ends in a null dereference |
| Simulation.ChoseTalents | UdonSharp/LifeGameController.cs:545-582 | the state and outcome after ChooseTalents; its properties are `ChoseTalentsShape`, `InheritedStaysActive` and `InheritedExcludesRival` |
| Simulation.ChoseTalentsShape | UdonSharp/LifeGameController.cs:545-582 | a completed ChooseTalents acquires the inherited talent first (when an id is configured), then the first three of ten distinct candidates |
| Simulation.Eligible | UdonSharp/LifeGameController.cs:744-757 | an eligible entry stands for an event with the entry's id |
| Simulation.EligibleSound | UdonSharp/LifeGameController.cs:744-757 | an entry is eligible exactly when its id resolves to an event that passes the include filter (skipped for noRandom) and not the exclude filter |
| Simulation.TotalWeight | UdonSharp/LifeGameController.cs:714-735 | the first pass of ChooseEvent: the sum of the clamped weights of the eligible entries; `PickReachesRoll` relates it to the second pass |
| Simulation.PickFrom | UdonSharp/LifeGameController.cs:744-767 | the second pass of ChooseEvent: the eligible entry at which the decremented roll first drops to zero or below; where it lands is `PickReachesRoll` |
| Simulation.PickReachesRoll | UdonSharp/LifeGameController.cs:742-767 | a roll in [0, total] lands on an entry: the first eligible entry at which the running sum of clamped weights reaches the roll |
| Simulation.ChosenEvent | UdonSharp/LifeGameController.cs:713-770 | the event ChooseEvent returns and the new draw position; its properties are `ChosenEventSound` and `EmptyExcludeNeverChosen` |
| Simulation.ChosenEventSound | UdonSharp/LifeGameController.cs:713-770 | ChooseEvent returns none exactly when the filtered weight is zero, with no draw; otherwise it returns an event resolved by id that passes the filters, at the entry the roll lands on; the fallback to the first entry is never taken |
| Simulation.EmptyExcludeNeverChosen | UdonSharp/LifeGameController.cs:728-731 | an event whose exclude group is present but empty is never chosen |
| Simulation.FirstBranch | UdonSharp/LifeGameController.cs:783-794 | the branch followed fires |
| Simulation.FirstBranchSound | UdonSharp/LifeGameController.cs:783-794 | no branch is followed exactly when none fires; otherwise the first that fires is followed |
| Simulation.Entered | UdonSharp/LifeGameController.cs:779-781 | the state after marking the event, applying its effect and logging its description; its properties are `EnteredGrows` |
| Simulation.EnteredGrows | UdonSharp/LifeGameController.cs:779-781 | entering an event extends only the triggered ledger (by the event when there is room) and the log, and leaves the talents alone |
| Simulation.RanEvent | UdonSharp/LifeGameController.cs:772-800 | the state and outcome after RunEvent; its properties are `RanEventSteps`, `RanEventGrows` and `RanEventMarks` |
| Simulation.RanEventSteps | UdonSharp/LifeGameController.cs:772-800 | the post text is appended exactly when no branch fires; a fired branch with an unknown target still ends the event; otherwise the target runs next |
| Simulation.RanEventGrows | UdonSharp/LifeGameController.cs:772-800 | an event chain only extends the triggered ledger, within its capacity, and the log; the talents are untouched |
| Simulation.RanEventMarks | UdonSharp/LifeGameController.cs:779 | an event that runs is in the triggered ledger afterwards whenever the ledger had room |
| Simulation.AdvancedYear | UdonSharp/LifeGameController.cs:647-672 | the state and outcome after AdvanceYear (AGE + 1, the grants, then `YearEvent`); its properties are `QuietYear` |
| Simulation.YearEvent | UdonSharp/LifeGameController.cs:664-671 | the event part of AdvanceYear: nothing for an empty event list, otherwise ChooseEvent and RunEvent of the choice; its properties are `QuietEvent` |
| Simulation.QuietEvent | UdonSharp/LifeGameController.cs:664-671 | when no event is chosen the event part completes and changes only the draw position |
| Simulation.QuietYear | UdonSharp/LifeGameController.cs:647-672 | a year in which no event runs raises AGE by exactly one and changes neither LIF, the event ledger nor the log |
| Simulation.LivedFrom | UdonSharp/LifeGameController.cs:641-644 | the `while (LIF > 0)` loop with at most `years` more years; its properties are `LifeEndsWithoutLifespan` |
| Simulation.Lived | UdonSharp/LifeGameController.cs:638-645 | RunLifeToEnd: the log cleared, then `LivedFrom` |
| Simulation.LifeEndsWithoutLifespan | UdonSharp/LifeGameController.cs:638-645 | a completed life ends with LIF <= 0; a life that starts with LIF <= 0 runs no year |
| Simulation.Inherited | UdonSharp/LifeGameController.cs:502-513 | the resets leave the initial attributes and empty ledgers, TMS is 2 exactly for an inherited id > 0, and an inherited id >= 0 is the only active talent |
| Simulation.InheritedStaysActive | UdonSharp/LifeGameController.cs:508-516 | the inherited id is still active after ChooseTalents, whatever the exclusive lists say |
| Simulation.InheritedExcludesRival | UdonSharp/LifeGameController.cs:510-581 | when every catalogue talent with id b names the inherited id as exclusive, ChooseTalents never makes b active |
| Simulation.BegunLife | UdonSharp/LifeGameController.cs:502-518 | the state and outcome after BeginLife; its properties are `NoTalentsNoLife`, `InheritedStaysActive` and `InheritedExcludesRival` |
| Simulation.NoTalentsNoLife | UdonSharp/LifeGameController.cs:502-518 | with an empty talent catalogue BeginLife stops in ChooseTalents on a null dereference, and nothing is logged |
| Controller.LifeGameController.constructor | UdonSharp/LifeGameController.cs:429-446 | a new controller has the initial attributes, empty ledgers and an empty log |
| Controller.LifeGameController.BuildLookups | UdonSharp/LifeGameController.cs:458-485 | afterwards there are four buckets and bucket g holds the talents of grade g in catalogue order |
| Controller.LifeGameController.BucketOf | UdonSharp/LifeGameController.cs:464-483 | the computed bucket is exactly `GradeBucket` |
| Controller.LifeGameController.CountGrade | UdonSharp/LifeGameController.cs:464-471 | the count is the size of the bucket |
| Controller.LifeGameController.FillGrade | UdonSharp/LifeGameController.cs:473-481 | the buffer ends holding the bucket |
| Controller.LifeGameController.PickRandomTalent | UdonSharp/LifeGameController.cs:584-614 | the talent and the new position are those of `PickTalent` |
| Controller.LifeGameController.ScanCandidates | UdonSharp/LifeGameController.cs:553-560 | the array scan gives the result of `ScanFrom` on the stored candidates |
| Controller.LifeGameController.DrawCandidate | UdonSharp/LifeGameController.cs:552-566 | one draw and scan; an unseen talent is stored after the candidates and nothing else in the buffer changes |
| Controller.LifeGameController.GatherCandidates | UdonSharp/LifeGameController.cs:545-567 | the candidates, the position and the outcome are those of `Gather` |
| Controller.LifeGameController.AcquireCandidates | UdonSharp/LifeGameController.cs:578-581 | the state becomes `AddedAll` of the candidates; the triggered-talent list is unchanged |
| Controller.LifeGameController.ChooseTalents | UdonSharp/LifeGameController.cs:545-582 | the new state and outcome are `ChoseTalents` of the old state; the triggered-talent list is unchanged |
| Controller.LifeGameController.AddTalent | UdonSharp/LifeGameController.cs:616-636 | the new state is `Added` of the old state; the triggered-talent list is unchanged |
| Controller.LifeGameController.AllocationLoop | UdonSharp/LifeGameController.cs:522-538 | the three values, the remainder and the position are those of `Allocate` |
| Controller.LifeGameController.AllocateInitialProperties | UdonSharp/LifeGameController.cs:520-543 | CHR, INT, STR and MNY become the values of `Allocate`, and nothing else changes but the position |
| Controller.LifeGameController.AppendLog | UdonSharp/LifeGameController.cs:802-817 | the log becomes `Appended(old log, text)` |
| Controller.LifeGameController.SumWeights | UdonSharp/LifeGameController.cs:715-733 | the first pass yields `TotalWeight` |
| Controller.LifeGameController.PickEntry | UdonSharp/LifeGameController.cs:742-767 | the second pass yields `PickFrom` |
| Controller.LifeGameController.ChooseEvent | UdonSharp/LifeGameController.cs:713-770 | the event and the new position are `ChosenEvent` of the old state |
| Controller.LifeGameController.EnterEvent | UdonSharp/LifeGameController.cs:779-781 | the state becomes `Entered` of the old state |
| Controller.LifeGameController.FindFirstBranch | UdonSharp/LifeGameController.cs:783-794 | the branch loop yields `FirstBranch` |
| Controller.LifeGameController.RunEvent | UdonSharp/LifeGameController.cs:772-800 | the new state and outcome are `RanEvent` of the old state |
| Controller.LifeGameController.GrantTalents | UdonSharp/LifeGameController.cs:652-661 | the state becomes `AddedAll` of the granted talents; the triggered-talent list is unchanged |
| Controller.LifeGameController.AdvanceYear | UdonSharp/LifeGameController.cs:647-672 | the new state and outcome are `AdvancedYear` of the old state; the triggered-talent list is unchanged |
| Controller.LifeGameController.RunYearEvent | UdonSharp/LifeGameController.cs:664-671 | the new state and outcome are `YearEvent` of the old state; the talent ledger is not touched |
| Controller.LifeGameController.LiveYear | UdonSharp/LifeGameController.cs:641-644 | one pass of the life loop is one step of `LivedFrom`; the triggered-talent list is unchanged |
| Controller.LifeGameController.RunLifeToEnd | UdonSharp/LifeGameController.cs:638-645 | the new state and outcome are `Lived` of the old state; the triggered-talent list is unchanged |
| Controller.LifeGameController.ResetForLife | UdonSharp/LifeGameController.cs:505-513 | the state becomes `Inherited` of the old state; the triggered-talent list is empty |
| Controller.LifeGameController.BeginLife | UdonSharp/LifeGameController.cs:502-518 | the new state and outcome are `BegunLife` of the old state; the triggered-talent list is empty |

## Left out

- The Unity and VRChat scaffolding is not modelled: `UdonSharpBehaviour`, `Start`, `autoStart` and the serialisation attributes. `BuildLookups` must run before `BeginLife` (precondition `LookupsBuilt`), as `Start` ensures in the source.
- RandomSource.Random: the `System.Random` algorithm and the seed chosen in `EnsureRandom` (UdonSharp/LifeGameController.cs:487-500) are not modelled. The stream is a parameter, and a call of `Next` or `NextDouble` consumes one position.
- RandomSource.Draw: an out-of-range raw value yields the low end of the range, so no claim is made about the distribution of any draw.
- Simulation.GradeOf: the float32 grade roll is modelled as the real roll scaled to thousandths and rounded up, compared against exact thousandths. Float rounding exactly at the boundaries 0.001, 0.011 and 0.111 is not captured.
- Simulation.ChosenEvent: weights are integers clamped at zero, and the float roll `NextDouble() * total` is modelled as its ceiling, an integer in [0, total]. The test `roll <= 0` gives the same answer for the real roll and its ceiling. Float rounding is not captured, so the fallback to the first entry, which only rounding could reach, is proved unreachable here.
- Display strings (`displayName`, the talent `description`), the talent's `effect` and `condition` (never read by the engine) and `GetActiveIds` (a copy of the active ids) are not modelled.
- Effects.Get: C# enums are open, so an out-of-range `PropertyKey` such as `(PropertyKey)8`, for example from serialised data, reaches the `default` case (UdonSharp/LifeGameController.cs:79) and reads 0. The model's `PropertyKey` and `ConditionMode` are closed datatypes and cannot express such values, so that case and the `default` case of `ConditionDefinition.Evaluate` (UdonSharp/LifeGameController.cs:174, which yields false) are not modelled.
- The nested arrays (`idList`, `exclusive`, `all`, `any`, `branches`, `events`, `grantedTalentIds`) are modelled as sequences, with null as the empty sequence, because the source treats a null one like an empty one.
- The three catalogue arrays `talentDefinitions`, `ageDefinitions` and `eventDefinitions` are assumed non-null. A null one makes the source throw (UdonSharp/LifeGameController.cs:465 in `BuildLookups`, :676 in the first `AdvanceYear`, :702 in `FindEvent`), while the model's empty sequence runs on: quiet years until the fuel runs out, or no event chosen.
- Null array elements, for example a null definition inside `talentDefinitions`, are not modelled. The null talent that `PickRandomTalent` returns for an empty catalogue is modelled.
- Controller.LifeGameController.GatherCandidates, RunLifeToEnd and RunEvent are bounded by the fuel and depth parameters. A run that would exhaust them reports `FuelExhausted` or `DepthExhausted`, while the source would loop or recurse further.
- Integer arithmetic is unbounded: the unchecked 32-bit wrap-around of the additions in `Apply` (UdonSharp/LifeGameController.cs:90-117), of `Total += statusBonus` (:635) and of `AGE += 1` (:649) is not modelled.
- Controller.LifeGameController.AllocateInitialProperties: for `total == int.MaxValue` the source's `remaining + 1` at UdonSharp/LifeGameController.cs:528 wraps to `int.MinValue` and `Next(0, int.MinValue)` throws `ArgumentOutOfRangeException`. The model draws from [0, total] and returns normally. `BeginLife` always passes the starting Total of 20, so only a direct call can reach this.
- The unused local `max` in `AllocateInitialProperties` (UdonSharp/LifeGameController.cs:527) has no effect and is not modelled.
- Distinct ids in the ledgers are stated on `Ledgers.Inserted` (it keeps a distinct ledger distinct) rather than as part of each ledger's `Valid` invariant.
- Both passes of `ChooseEvent` evaluate the same filters on the same state. The model computes them once per entry with `Simulation.Eligible`.
