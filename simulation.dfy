/**
 * The controller's run logic as functions of the life's state: the specification that the
 * methods of LifeGameController are proved to follow, and the lemmas about it.
 */
module Simulation {
  import opened Wrappers
  import opened RandomSource
  import opened Effects
  import opened Ledgers
  import Conditions
  import opened Catalogue

  const TalentChoicesPerRun: nat := 3
  const TalentCandidates: nat := 10

  /** Everything a life reads and writes: the attributes, the active talent ids, the
      triggered event ids, the log, and how many random draws have been consumed. */
  datatype World = World(
    props: Props, activeTalents: seq<int>, triggeredEvents: seq<int>, log: string, pos: nat)

  /** How a run ended.  NullDereference is the source's NullReferenceException; the other
      two say that one of the model's bounds, not the source, stopped the run. */
  datatype Outcome = Completed | NullDereference | FuelExhausted | DepthExhausted

  /** The bounds on the three places the source does not bound: candidate draws, years, and
      the number of events one branch chain may run. */
  datatype Fuel = Fuel(picks: nat, years: nat, depth: nat)

  predicate Holds(g: Conditions.ConditionGroup, w: World)
  {
    Conditions.EvaluateGroup(g, w.props, w.activeTalents, w.triggeredEvents)
  }

  // ---------------------------------------------------------------- the log

  /** The log after AppendLog(text). */
  function Appended(log: string, text: string): string
  {
    if text == "" then log
    else if log == "" then text
    else log + "\n" + text
  }

  /** The log after appending the texts in order. */
  function AppendedAll(log: string, texts: seq<string>): string
    decreases |texts|
  {
    if |texts| == 0 then log
    else Appended(AppendedAll(log, texts[..|texts| - 1]), texts[|texts| - 1])
  }

  /** The texts joined by newlines. */
  function Join(texts: seq<string>): string
    decreases |texts|
  {
    if |texts| == 0 then ""
    else if |texts| == 1 then texts[0]
    else Join(texts[..|texts| - 1]) + "\n" + texts[|texts| - 1]
  }

  /** Appending non-empty texts to an empty log yields the newline-joined transcript. */
  lemma {:induction false} AppendedAllJoins(texts: seq<string>)
    requires forall k :: 0 <= k < |texts| ==> texts[k] != ""
    ensures AppendedAll("", texts) == Join(texts)
    ensures |texts| > 0 ==> Join(texts) != ""
    decreases |texts|
  {
    if |texts| > 0 {
      var front := texts[..|texts| - 1];
      AppendedAllJoins(front);
      if |front| == 0 {
        assert AppendedAll("", front) == "";
      } else {
        assert front[0] == texts[0];
      }
    }
  }

  /** The log only grows: what was logged before stays a prefix. */
  lemma AppendedExtends(log: string, text: string)
    ensures log <= Appended(log, text)
    ensures text == "" ==> Appended(log, text) == log
  {
  }

  // ---------------------------------------------------------------- initial allocation

  datatype Allocation = Allocation(values: seq<int>, remaining: int, pos: nat)

  /** The allocation loop draws CHR, INT and STR in turn. */
  const AllocatedAttributes: nat := 3

  function Sum(s: seq<int>): int
    decreases |s|
  {
    if |s| == 0 then 0 else Sum(s[..|s| - 1]) + s[|s| - 1]
  }

  /** One round of the allocation loop: draw a value in [0, remaining] when budget remains
      (no draw otherwise), cap it at 10, and take it from the budget. */
  function Round(raw: nat -> int, a: Allocation): (b: Allocation)
    ensures |b.values| == |a.values| + 1 && b.values[..|a.values|] == a.values
  {
    var value := if a.remaining > 0 then Min(10, Draw(raw, a.pos, 0, a.remaining + 1)) else 0;
    var rest := a.remaining - value;
    Allocation(a.values + [value], if rest < 0 then 0 else rest, if a.remaining > 0 then a.pos + 1 else a.pos)
  }

  /** A round moves a value in 0..10 from the budget to the values and keeps the budget
      non-negative. */
  lemma RoundBudget(raw: nat -> int, a: Allocation)
    requires a.remaining >= 0
    ensures var b := Round(raw, a);
      b.remaining >= 0 && b.pos >= a.pos && 0 <= b.values[|a.values|] <= 10 &&
      Sum(b.values) + b.remaining == Sum(a.values) + a.remaining
  {
    var b := Round(raw, a);
    assert b.values[..|b.values| - 1] == a.values;
  }

  /** The first i rounds of the allocation loop: the values drawn, the unallocated budget and
      the draw position. */
  function AllocateRounds(raw: nat -> int, pos: nat, total: int, i: nat): (a: Allocation)
    ensures |a.values| == i
    decreases i
  {
    if i == 0 then Allocation([], if total < 0 then 0 else total, pos)
    else Round(raw, AllocateRounds(raw, pos, total, i - 1))
  }

  /** Each round draws a value in 0..10 and never more than the budget left, so the values
      and what remains always add up to the (non-negative) total. */
  lemma {:induction false} AllocateRoundsBudget(raw: nat -> int, pos: nat, total: int, i: nat)
    ensures var a := AllocateRounds(raw, pos, total, i);
      a.remaining >= 0 && a.pos >= pos &&
      (forall k :: 0 <= k < i ==> 0 <= a.values[k] <= 10) &&
      Sum(a.values) + a.remaining == (if total < 0 then 0 else total)
    decreases i
  {
    if i > 0 {
      var before := AllocateRounds(raw, pos, total, i - 1);
      AllocateRoundsBudget(raw, pos, total, i - 1);
      RoundBudget(raw, before);
      var a := Round(raw, before);
      assert AllocateRounds(raw, pos, total, i) == a;
      assert forall k :: 0 <= k < i - 1 ==> a.values[k] == before.values[k] by {
        assert a.values[..i - 1] == before.values;
      }
    }
  }

  function Min(a: int, b: int): int
  {
    if a < b then a else b
  }

  /** AllocateInitialProperties(total): the three rounds of the loop. */
  function Allocate(raw: nat -> int, pos: nat, total: int): (a: Allocation)
    ensures |a.values| == 3
  {
    AllocateRounds(raw, pos, total, AllocatedAttributes)
  }

  /** CHR, INT and STR get values in 0..10, MNY gets the rest, and the four add up to
      max(total, 0). */
  lemma AllocateSound(raw: nat -> int, pos: nat, total: int)
    ensures var a := Allocate(raw, pos, total);
      a.remaining >= 0 && a.pos >= pos && (forall k :: 0 <= k < 3 ==> 0 <= a.values[k] <= 10) &&
      a.values[0] + a.values[1] + a.values[2] + a.remaining == (if total < 0 then 0 else total)
  {
    var a := Allocate(raw, pos, total);
    AllocateRoundsBudget(raw, pos, total, AllocatedAttributes);
    assert Sum(a.values) == a.values[0] + a.values[1] + a.values[2] by {
      assert a.values[..2][..1] == a.values[..1];
    }
  }

  /** The attributes after the allocation. */
  function Allocated(p: Props, a: Allocation): Props
    requires |a.values| == 3
  {
    p.(chr := a.values[0], intel := a.values[1], str := a.values[2], mny := a.remaining)
  }

  // ---------------------------------------------------------------- acquiring talents

  /** The controller's AddTalent: a missing talent, or one whose exclusive list names an
      active talent, changes nothing; otherwise its id is inserted (a no-op if present or if
      the ledger is full) and its status bonus is added to Total in every case. */
  function Added(w: World, talent: Option<TalentDefinition>): World
  {
    match talent
    case None => w
    case Some(t) =>
      if ContainsAny(w.activeTalents, t.exclusive) then w
      else w.(activeTalents := Inserted(w.activeTalents, MaxTalents, t.id),
              props := w.props.(total := w.props.total + t.statusBonus))
  }

  /** AddTalent applied to each talent in order. */
  function AddedAll(w: World, talents: seq<Option<TalentDefinition>>): World
    decreases |talents|
  {
    if |talents| == 0 then w
    else Added(AddedAll(w, talents[..|talents| - 1]), talents[|talents| - 1])
  }

  /** The talents the ids resolve to (none for an unknown id). */
  function TalentsFor(defs: seq<TalentDefinition>, ids: seq<int>): seq<Option<TalentDefinition>>
  {
    seq(|ids|, k requires 0 <= k < |ids| => FindTalent(defs, ids[k]))
  }

  /** A blocked talent changes neither the ledger nor Total. */
  lemma AddedBlocked(w: World, t: TalentDefinition, blocker: int)
    requires blocker in t.exclusive && blocker in w.activeTalents
    ensures Added(w, Some(t)) == w
  {
    var k :| 0 <= k < |t.exclusive| && t.exclusive[k] == blocker;
    ContainsAnySound(w.activeTalents, t.exclusive);
  }

  /** The bonus is paid even when the talent is already active, though the ledger is left
      as it was (the insert is a no-op but the addition to Total is unconditional). */
  lemma AddedPaysBonusAgain(w: World, t: TalentDefinition)
    requires t.id in w.activeTalents && !ContainsAny(w.activeTalents, t.exclusive)
    ensures Added(w, Some(t)).activeTalents == w.activeTalents
    ensures Added(w, Some(t)).props == w.props.(total := w.props.total + t.statusBonus)
  {
  }

  /** Acquiring talents changes only the active ledger and Total. */
  lemma {:induction false} AddedAllOnlyTalentsAndTotal(w: World, talents: seq<Option<TalentDefinition>>)
    ensures var r := AddedAll(w, talents);
      r.props == w.props.(total := r.props.total) && r.triggeredEvents == w.triggeredEvents &&
      r.log == w.log && r.pos == w.pos && w.activeTalents <= r.activeTalents
    decreases |talents|
  {
    if |talents| > 0 {
      AddedAllOnlyTalentsAndTotal(w, talents[..|talents| - 1]);
    }
  }

  /** Once an id `a` is active, no talent whose exclusive list names `a` can become active:
      a talent with id `b` stays out whatever the order of acquisition. */
  lemma {:induction false} ExclusiveStaysOut(w: World, talents: seq<Option<TalentDefinition>>, a: int, b: int)
    requires a in w.activeTalents && b !in w.activeTalents
    requires forall k :: 0 <= k < |talents| && talents[k].Some? && talents[k].value.id == b ==>
      a in talents[k].value.exclusive
    ensures a in AddedAll(w, talents).activeTalents && b !in AddedAll(w, talents).activeTalents
    decreases |talents|
  {
    if |talents| > 0 {
      var n := |talents| - 1;
      ExclusiveStaysOut(w, talents[..n], a, b);
      var v := AddedAll(w, talents[..n]);
      match talents[n]
      case None =>
      case Some(t) =>
        if t.id == b {
          AddedBlocked(v, t, a);
        }
    }
  }

  // ---------------------------------------------------------------- drawing candidates

  /** The grade probabilities of PickRandomTalent in thousandths, indexed by grade. */
  const GradeOdds: seq<int> := [889, 100, 10, 1]

  /** The grade roll is the real roll in [0, 1) scaled to thousandths and rounded up, so it
      lies in 0..1000.  Every running sum of GradeOdds is a whole number of thousandths, so
      each test `value <= 0` of the loop comes out as it does on the real roll. */
  const GradeResolution: nat := 1000

  /** The grade loop of PickRandomTalent from `grade` down: subtract that grade's odds and
      stop once the value is no longer positive. */
  function GradeScan(value: int, grade: int): int
    requires -1 <= grade < |GradeOdds|
    decreases grade + 1
  {
    if grade < 0 then grade
    else if value - GradeOdds[grade] <= 0 then grade
    else GradeScan(value - GradeOdds[grade], grade - 1)
  }

  /** The grade rolled for a value in thousandths: grade 3 up to 0.001, grade 2 up to 0.011,
      grade 1 up to 0.111, grade 0 above; within 0..1000 the loop never runs off the end,
      so the clamp to grade 0 never applies. */
  function GradeOf(value: int): (g: int)
    ensures 0 <= g < GradeCount
    ensures g == 3 <==> value <= 1
    ensures g == 2 <==> 1 < value <= 11
    ensures g == 1 <==> 11 < value <= 111
    ensures g == 0 <==> 111 < value
    ensures value <= GradeResolution ==> GradeScan(value, 3) == g
  {
    var g := GradeScan(value, 3);
    if g < 0 then 0 else g
  }

  /** PickRandomTalent: a grade from the probability table, then a uniform index into that
      grade's bucket; an empty bucket falls back to the first talent of the catalogue, or to
      none when the catalogue is empty. */
  function PickTalent(defs: seq<TalentDefinition>, raw: nat -> int, pos: nat): (r: (Option<TalentDefinition>, nat))
  {
    var grade := GradeOf(Draw(raw, pos, 0, GradeResolution + 1));
    var pool := GradeBucket(defs, Clamp(grade, 0, GradeCount - 1));
    if |pool| == 0 then
      (if |defs| > 0 then Some(defs[0]) else None, pos + 1)
    else
      (Some(pool[Draw(raw, pos + 1, 0, |pool|)]), pos + 2)
  }

  /** A draw yields a talent of the catalogue exactly when the catalogue is not empty; it is of
      the rolled grade whenever that grade has talents; it consumes one or two positions. */
  lemma PickTalentSound(defs: seq<TalentDefinition>, raw: nat -> int, pos: nat)
    ensures var r := PickTalent(defs, raw, pos);
      (r.0.Some? <==> |defs| > 0) &&
      (r.0.Some? ==> r.0.value in defs) &&
      (r.1 == pos + 1 || r.1 == pos + 2)
    ensures var grade := GradeOf(Draw(raw, pos, 0, GradeResolution + 1));
      |GradeBucket(defs, grade)| > 0 ==> PickTalent(defs, raw, pos).0.Some? && PickTalent(defs, raw, pos).0.value.grade == grade
  {
    var grade := GradeOf(Draw(raw, pos, 0, GradeResolution + 1));
    var pool := GradeBucket(defs, Clamp(grade, 0, GradeCount - 1));
    if |pool| > 0 {
      BucketMembers(defs, Clamp(grade, 0, GradeCount - 1), pool[Draw(raw, pos + 1, 0, |pool|)]);
    } else if |defs| == 0 {
      assert pool == [];
    }
  }

  function Clamp(x: int, lo: int, hi: int): int
  {
    if x < lo then lo else if x > hi then hi else x
  }

  /** The result of the duplicate scan of ChooseTalents. */
  datatype Scan = Unseen | Seen | NullCandidate

  /** The scan of the candidates from position i for a talent with the same id; reading the
      id of a missing talent is the source's null dereference. */
  function ScanFrom(cands: seq<Option<TalentDefinition>>, t: Option<TalentDefinition>, i: nat): Scan
    requires i <= |cands|
    decreases |cands| - i
  {
    if i == |cands| then Unseen
    else if cands[i].None? || t.None? then NullCandidate
    else if cands[i].value.id == t.value.id then Seen
    else ScanFrom(cands, t, i + 1)
  }

  /** What each scan result says about the candidates from `i` on. */
  lemma {:induction false} ScanFromSound(cands: seq<Option<TalentDefinition>>, t: Option<TalentDefinition>, i: nat)
    requires i <= |cands|
    ensures ScanFrom(cands, t, i) == Unseen <==> forall k :: i <= k < |cands| ==>
      cands[k].Some? && t.Some? && cands[k].value.id != t.value.id
    ensures ScanFrom(cands, t, i) == Seen ==>
      exists k :: i <= k < |cands| && cands[k].Some? && t.Some? && cands[k].value.id == t.value.id
    ensures ScanFrom(cands, t, i) == NullCandidate ==> i < |cands| && exists k :: i <= k < |cands| && (cands[k].None? || t.None?)
    decreases |cands| - i
  {
    if i < |cands| && cands[i].Some? && t.Some? && cands[i].value.id != t.value.id {
      ScanFromSound(cands, t, i + 1);
    }
  }

  datatype Gathered = Gathered(candidates: seq<Option<TalentDefinition>>, pos: nat, outcome: Outcome)

  /** The candidate loop of ChooseTalents from the given candidates on, with at most `fuel`
      more draws of PickRandomTalent. */
  function Gather(defs: seq<TalentDefinition>, raw: nat -> int, pos: nat,
                  cands: seq<Option<TalentDefinition>>, fuel: nat): Gathered
    decreases fuel
  {
    if |cands| >= TalentCandidates then Gathered(cands, pos, Completed)
    else if fuel == 0 then Gathered(cands, pos, FuelExhausted)
    else
      var r := PickTalent(defs, raw, pos);
      var scan := ScanFrom(cands, r.0, 0);
      if scan == NullCandidate then Gathered(cands, r.1, NullDereference)
      else if scan == Seen then Gather(defs, raw, r.1, cands, fuel - 1)
      else Gather(defs, raw, r.1, cands + [r.0], fuel - 1)
  }

  /** One draw of the candidate loop that does not complete it. */
  lemma GatherStep(defs: seq<TalentDefinition>, raw: nat -> int, pos: nat,
                   cands: seq<Option<TalentDefinition>>, fuel: nat,
                   talent: Option<TalentDefinition>, next: nat,
                   scan: Scan, nextCands: seq<Option<TalentDefinition>>)
    requires |cands| < TalentCandidates && fuel > 0
    requires (talent, next) == PickTalent(defs, raw, pos)
    requires scan == ScanFrom(cands, talent, 0)
    requires nextCands == if scan == Unseen then cands + [talent] else cands
    ensures Gather(defs, raw, pos, cands, fuel) ==
      if scan == NullCandidate then Gathered(cands, next, NullDereference)
      else Gather(defs, raw, next, nextCands, fuel - 1)
  {
  }

  /** Every candidate is present and no two share an id. */
  predicate DistinctCandidates(cands: seq<Option<TalentDefinition>>)
  {
    (forall k :: 0 <= k < |cands| ==> cands[k].Some?) &&
    (forall i, j :: 0 <= i < j < |cands| ==> cands[i].value.id != cands[j].value.id)
  }

  /** A completed candidate loop has gathered exactly ten talents with pairwise distinct ids.
      (A missing talent can enter only as the first candidate, and the next draw then
      dereferences it.) */
  lemma {:induction false} GatherDistinct(defs: seq<TalentDefinition>, raw: nat -> int, pos: nat,
                                          cands: seq<Option<TalentDefinition>>, fuel: nat)
    requires |cands| <= TalentCandidates
    requires DistinctCandidates(cands) || cands == [None]
    ensures var g := Gather(defs, raw, pos, cands, fuel);
      g.outcome == Completed ==> |g.candidates| == TalentCandidates && DistinctCandidates(g.candidates)
    ensures Gather(defs, raw, pos, cands, fuel).outcome != DepthExhausted
    decreases fuel
  {
    if |cands| < TalentCandidates && fuel > 0 {
      var r := PickTalent(defs, raw, pos);
      var scan := ScanFrom(cands, r.0, 0);
      if scan == Seen {
        GatherDistinct(defs, raw, r.1, cands, fuel - 1);
      } else if scan == Unseen {
        UnseenExtends(cands, r.0);
        GatherDistinct(defs, raw, r.1, cands + [r.0], fuel - 1);
      }
    }
  }

  /** A candidate the scan has not seen keeps the candidates distinct, or is the first and
      missing one. */
  lemma UnseenExtends(cands: seq<Option<TalentDefinition>>, t: Option<TalentDefinition>)
    requires DistinctCandidates(cands) || cands == [None]
    requires ScanFrom(cands, t, 0) == Unseen
    ensures DistinctCandidates(cands + [t]) || cands + [t] == [None]
  {
    var next := cands + [t];
    ScanFromSound(cands, t, 0);
    if t.Some? {
      assert forall k :: 0 <= k < |cands| ==> next[k] == cands[k];
    } else {
      assert cands == [];
    }
  }

  /** With an empty talent catalogue the candidate loop never completes: the first draw
      yields no talent and the second dereferences it. */
  lemma EmptyCatalogueDereferencesNull(raw: nat -> int, pos: nat, fuel: nat)
    requires fuel >= 2
    ensures Gather([], raw, pos, [], fuel).outcome == NullDereference
  {
    var g1 := PickTalent([], raw, pos);
    assert ScanFrom([], g1.0, 0) == Unseen;
    var g2 := PickTalent([], raw, g1.1);
    assert ScanFrom([None], g2.0, 0) == NullCandidate;
  }

  /** ChooseTalents: gather the candidates, then acquire the inherited talent (when an id is
      configured and it resolves) and the first three candidates, in that order. */
  function ChoseTalents(defs: seq<TalentDefinition>, raw: nat -> int, w: World,
                        inheritId: int, fuel: nat): (World, Outcome)
  {
    var g := Gather(defs, raw, w.pos, [], fuel);
    var w1 := w.(pos := g.pos);
    if g.outcome != Completed then (w1, g.outcome)
    else
      var w2 := if inheritId >= 0 then Added(w1, FindTalent(defs, inheritId)) else w1;
      var n := if |g.candidates| < TalentChoicesPerRun then |g.candidates| else TalentChoicesPerRun;
      (AddedAll(w2, g.candidates[..n]), Completed)
  }

  /** What ChooseTalents acquires: the inherited talent first, then the first three of ten
      candidates with pairwise distinct ids. */
  lemma ChoseTalentsShape(defs: seq<TalentDefinition>, raw: nat -> int, w: World, inheritId: int, fuel: nat)
    requires ChoseTalents(defs, raw, w, inheritId, fuel).1 == Completed
    ensures var g := Gather(defs, raw, w.pos, [], fuel);
      |g.candidates| == TalentCandidates && DistinctCandidates(g.candidates) &&
      ChoseTalents(defs, raw, w, inheritId, fuel).0 ==
        AddedAll(if inheritId >= 0 then Added(w.(pos := g.pos), FindTalent(defs, inheritId)) else w.(pos := g.pos),
                 g.candidates[..TalentChoicesPerRun])
  {
    GatherDistinct(defs, raw, w.pos, [], fuel);
  }

  // ---------------------------------------------------------------- choosing an event

  /** The include and exclude filters of ChooseEvent: the include condition is skipped for
      a noRandom event, and a missing condition filters nothing. */
  predicate PassesFilters(e: EventDefinition, w: World)
  {
    (e.noRandom || e.includeCondition.None? || Holds(e.includeCondition.value, w)) &&
    (e.excludeCondition.None? || !Holds(e.excludeCondition.value, w))
  }

  /** The event an entry stands for if it survives the filters of both passes. */
  function Eligible(defs: seq<EventDefinition>, entry: WeightedEventDefinition, w: World): (r: Option<EventDefinition>)
    ensures r.Some? ==> r.value.id == entry.eventId
  {
    match FindEvent(defs, entry.eventId)
    case None => None
    case Some(e) => if PassesFilters(e, w) then Some(e) else None
  }

  /** An entry is eligible exactly when its id resolves to a definition that passes the
      filters, and then it stands for that definition. */
  lemma EligibleSound(defs: seq<EventDefinition>, entry: WeightedEventDefinition, w: World)
    ensures var r := Eligible(defs, entry, w);
      (r.Some? ==> r.value in defs && PassesFilters(r.value, w)) &&
      (r.None? <==> FindEvent(defs, entry.eventId).None? || !PassesFilters(FindEvent(defs, entry.eventId).value, w))
  {
  }

  /** Mathf.Max(0, weight). */
  function Clamped(weight: int): nat
  {
    if weight < 0 then 0 else weight
  }

  /** What an entry adds to the total weight. */
  function Contribution(defs: seq<EventDefinition>, entry: WeightedEventDefinition, w: World): nat
  {
    if Eligible(defs, entry, w).Some? then Clamped(entry.weight) else 0
  }

  /** The first pass of ChooseEvent: the clamped weights of the eligible entries, summed. */
  function TotalWeight(defs: seq<EventDefinition>, entries: seq<WeightedEventDefinition>, w: World): nat
    decreases |entries|
  {
    if |entries| == 0 then 0
    else Contribution(defs, entries[0], w) + TotalWeight(defs, entries[1..], w)
  }

  lemma {:induction false} TotalWeightAppend(defs: seq<EventDefinition>, a: seq<WeightedEventDefinition>,
                                             b: seq<WeightedEventDefinition>, w: World)
    ensures TotalWeight(defs, a + b, w) == TotalWeight(defs, a, w) + TotalWeight(defs, b, w)
    decreases |a|
  {
    if |a| > 0 {
      assert (a + b)[1..] == a[1..] + b;
      TotalWeightAppend(defs, a[1..], b, w);
    } else {
      assert a + b == b;
    }
  }

  /** The second pass of ChooseEvent: subtract each eligible entry's clamped weight from the
      roll and stop at the first entry where it is no longer positive; none means no entry
      hit. */
  function PickFrom(defs: seq<EventDefinition>, entries: seq<WeightedEventDefinition>, w: World, roll: int)
    : Option<EventDefinition>
    decreases |entries|
  {
    if |entries| == 0 then None
    else
      match Eligible(defs, entries[0], w)
      case None => PickFrom(defs, entries[1..], w, roll)
      case Some(e) =>
        var rest := roll - Clamped(entries[0].weight);
        if rest <= 0 then Some(e) else PickFrom(defs, entries[1..], w, rest)
  }

  /** The second pass at entry i of the loop over all entries. */
  lemma PickFromAt(defs: seq<EventDefinition>, entries: seq<WeightedEventDefinition>, i: nat, w: World, left: int,
                   candidate: Option<EventDefinition>)
    requires i < |entries| && candidate == Eligible(defs, entries[i], w)
    ensures PickFrom(defs, entries[i..], w, left) ==
      if candidate.None? then PickFrom(defs, entries[i + 1..], w, left)
      else if left - Clamped(entries[i].weight) <= 0 then candidate
      else PickFrom(defs, entries[i + 1..], w, left - Clamped(entries[i].weight))
  {
    assert entries[i..][1..] == entries[i + 1..];
  }

  /** The second pass at its first entry: hit there, or go on with the roll less the
      entry's contribution. */
  lemma PickFromFirst(defs: seq<EventDefinition>, entries: seq<WeightedEventDefinition>, w: World, roll: int)
    requires |entries| > 0
    ensures var c := Contribution(defs, entries[0], w);
      PickFrom(defs, entries, w, roll) ==
        if Eligible(defs, entries[0], w).Some? && roll - c <= 0 then Eligible(defs, entries[0], w)
        else PickFrom(defs, entries[1..], w, roll - c)
  {
  }

  /** A roll in [0, total] always hits: the entry picked is the first eligible one at which
      the running sum of clamped weights reaches the roll.  A positive roll lands on an entry
      of positive weight; a zero roll lands on the first eligible entry whatever its weight. */
  lemma {:induction false} PickReachesRoll(defs: seq<EventDefinition>, entries: seq<WeightedEventDefinition>,
                                           w: World, roll: int) returns (k: int)
    requires 0 <= roll <= TotalWeight(defs, entries, w) && TotalWeight(defs, entries, w) > 0
    ensures HitsAt(defs, entries, w, roll, k)
    decreases |entries|
  {
    var c := Contribution(defs, entries[0], w);
    if Eligible(defs, entries[0], w).Some? && roll - c <= 0 {
      PrefixWeight(defs, entries, w, 0);
      assert entries[..0] == [];
      k := 0;
    } else {
      assert TotalWeight(defs, entries, w) == c + TotalWeight(defs, entries[1..], w);
      var j := PickReachesRoll(defs, entries[1..], w, roll - c);
      HitsAtShift(defs, entries, w, roll, j);
      k := j + 1;
    }
  }

  /** A hit in the entries after the first, which the first entry let the roll pass, is a
      hit one position later in the whole list. */
  lemma HitsAtShift(defs: seq<EventDefinition>, entries: seq<WeightedEventDefinition>, w: World, roll: int, k: int)
    requires |entries| > 0 && roll >= 0
    requires var c := Contribution(defs, entries[0], w);
      !(Eligible(defs, entries[0], w).Some? && roll - c <= 0) && HitsAt(defs, entries[1..], w, roll - c, k)
    ensures HitsAt(defs, entries, w, roll, k + 1)
  {
    var c := Contribution(defs, entries[0], w);
    var rest := entries[1..];
    PickFromFirst(defs, entries, w, roll);
    assert k < |rest| && entries[k + 1] == rest[k];
    PrefixWeight(defs, entries, w, k + 1);
    if roll > 0 {
      PrefixWeight(defs, entries, w, k);
    } else {
      assert forall j :: 1 <= j < k + 1 ==> entries[j] == rest[j - 1];
    }
  }

  /** Entry k is where the pick of the roll lands: it is eligible, the running sum reaches
      the roll there and not before (or, for a zero roll, no earlier entry is eligible), and
      its weight is positive unless the roll is zero. */
  predicate HitsAt(defs: seq<EventDefinition>, entries: seq<WeightedEventDefinition>, w: World, roll: int, k: int)
  {
    0 <= k < |entries| && Eligible(defs, entries[k], w).Some? &&
    PickFrom(defs, entries, w, roll) == Eligible(defs, entries[k], w) &&
    roll <= TotalWeight(defs, entries[..k + 1], w) &&
    (roll > 0 ==> TotalWeight(defs, entries[..k], w) < roll && Clamped(entries[k].weight) > 0) &&
    (roll <= 0 ==> forall j :: 0 <= j < k ==> Eligible(defs, entries[j], w).None?)
  }

  /** The running sum over a prefix, split at its first entry. */
  lemma PrefixWeight(defs: seq<EventDefinition>, entries: seq<WeightedEventDefinition>, w: World, k: nat)
    requires k < |entries|
    ensures TotalWeight(defs, entries[..k + 1], w) ==
      Contribution(defs, entries[0], w) + TotalWeight(defs, entries[1..][..k], w)
  {
    assert entries[..k + 1][1..] == entries[1..][..k];
  }

  /** ChooseEvent for the entries of an age: none when the total weight is zero (no draw is
      made); otherwise one draw of the roll in [0, total], the pick of the second pass, and
      the first entry's event as the fallback when nothing hits.  The roll is the real roll in
      [0, total) rounded up: with whole weights, `roll - sum <= 0` holds of the real roll
      exactly when it holds of its ceiling. */
  function ChosenEvent(defs: seq<EventDefinition>, raw: nat -> int, entries: seq<WeightedEventDefinition>, w: World)
    : (Option<EventDefinition>, nat)
    requires |entries| > 0
  {
    var total := TotalWeight(defs, entries, w);
    if total <= 0 then (None, w.pos)
    else
      var roll := Draw(raw, w.pos, 0, total + 1);
      match PickFrom(defs, entries, w, roll)
      case Some(e) => (Some(e), w.pos + 1)
      case None => (FindEvent(defs, entries[0].eventId), w.pos + 1)
  }

  /** ChooseEvent returns none exactly when the filtered weight is zero, and otherwise an
      event that resolves by id, passes its include condition (unless noRandom), does not
      meet its exclude condition, and sits at the first entry whose running weight reaches
      the roll.  The fallback to the first entry is never taken. */
  lemma ChosenEventSound(defs: seq<EventDefinition>, raw: nat -> int, entries: seq<WeightedEventDefinition>, w: World)
    requires |entries| > 0
    ensures var (e, p) := ChosenEvent(defs, raw, entries, w);
      var total := TotalWeight(defs, entries, w);
      (e.None? <==> total == 0) &&
      (e.None? ==> p == w.pos) &&
      (e.Some? ==> p == w.pos + 1 && e.value in defs && PassesFilters(e.value, w)) &&
      (e.Some? ==> exists k :: (HitsAt(defs, entries, w, Draw(raw, w.pos, 0, total + 1), k) &&
        entries[k].eventId == e.value.id))
  {
    var total := TotalWeight(defs, entries, w);
    if total > 0 {
      var k := PickReachesRoll(defs, entries, w, Draw(raw, w.pos, 0, total + 1));
      EligibleSound(defs, entries[k], w);
    }
  }

  /** An event whose exclude condition is present but empty is never chosen: the empty group
      holds, so the event is always excluded (unlike a missing exclude condition). */
  lemma EmptyExcludeNeverChosen(defs: seq<EventDefinition>, raw: nat -> int, entries: seq<WeightedEventDefinition>,
                                w: World, e: EventDefinition)
    requires |entries| > 0
    requires e.excludeCondition == Some(Conditions.ConditionGroup([], []))
    ensures ChosenEvent(defs, raw, entries, w).0 != Some(e)
  {
    ChosenEventSound(defs, raw, entries, w);
  }

  // ---------------------------------------------------------------- running an event

  /** A branch fires when it has no condition or its condition holds. */
  predicate Fires(b: EventBranchDefinition, w: World)
  {
    b.condition.None? || Holds(b.condition.value, w)
  }

  /** The branch RunEvent follows: the first that fires. */
  function FirstBranch(bs: seq<EventBranchDefinition>, w: World): (r: Option<EventBranchDefinition>)
    ensures r.Some? ==> Fires(r.value, w)
    decreases |bs|
  {
    if |bs| == 0 then None
    else if Fires(bs[0], w) then Some(bs[0])
    else FirstBranch(bs[1..], w)
  }

  /** No branch fires exactly when there is none to follow; otherwise the branch followed is
      the first that fires. */
  lemma {:induction false} FirstBranchSound(bs: seq<EventBranchDefinition>, w: World)
    ensures FirstBranch(bs, w).None? <==> forall k :: 0 <= k < |bs| ==> !Fires(bs[k], w)
    ensures FirstBranch(bs, w).Some? ==> exists k :: (0 <= k < |bs| && bs[k] == FirstBranch(bs, w).value &&
      forall j :: 0 <= j < k ==> !Fires(bs[j], w))
    decreases |bs|
  {
    if |bs| > 0 && !Fires(bs[0], w) {
      FirstBranchSound(bs[1..], w);
      assert forall k :: 1 <= k < |bs| ==> bs[k] == bs[1..][k - 1];
      if FirstBranch(bs, w).Some? {
        var k :| 0 <= k < |bs[1..]| && bs[1..][k] == FirstBranch(bs, w).value &&
          forall j :: 0 <= j < k ==> !Fires(bs[1..][j], w);
        assert bs[k + 1] == FirstBranch(bs, w).value;
      }
    } else if |bs| > 0 {
      assert bs[0] == FirstBranch(bs, w).value;
    }
  }

  /** Steps 1 to 3 of RunEvent: mark the event triggered, apply its effect (one draw when it
      has a random bonus), append its description. */
  function Entered(raw: nat -> int, w: World, e: EventDefinition): World
  {
    var w1 := w.(triggeredEvents := Inserted(w.triggeredEvents, MaxEvents, e.id));
    var w2 := w1.(props := Applied(w1.props, e.effect, Draw(raw, w1.pos, 0, 5)),
                  pos := w1.pos + ApplyDraws(e.effect));
    w2.(log := Appended(w2.log, e.description))
  }

  /** Entering an event only extends the triggered ledger (within its capacity, and by the
      event when there is room) and the log, and draws at most once. */
  lemma EnteredGrows(raw: nat -> int, w: World, e: EventDefinition)
    requires |w.triggeredEvents| <= MaxEvents
    ensures var w3 := Entered(raw, w, e);
      w.triggeredEvents <= w3.triggeredEvents && |w3.triggeredEvents| <= MaxEvents &&
      w.log <= w3.log && w.pos <= w3.pos && w.activeTalents == w3.activeTalents &&
      (|w.triggeredEvents| < MaxEvents ==> e.id in w3.triggeredEvents)
  {
    AppendedExtends(w.log, e.description);
  }

  /** RunEvent: a missing event does nothing; otherwise enter it, then run the target of the
      first branch that fires and stop (an unknown target runs nothing), or, when no branch
      fires, append the post text.  `depth` bounds the number of events the chain runs. */
  function RanEvent(defs: seq<EventDefinition>, raw: nat -> int, w: World, evt: Option<EventDefinition>, depth: nat)
    : (World, Outcome)
    decreases depth
  {
    match evt
    case None => (w, Completed)
    case Some(e) =>
      if depth == 0 then (w, DepthExhausted)
      else
        var w3 := Entered(raw, w, e);
        match FirstBranch(e.branches, w3)
        case Some(b) => RanEvent(defs, raw, w3, FindEvent(defs, b.nextEventId), depth - 1)
        case None => (w3.(log := Appended(w3.log, e.postEventText)), Completed)
  }

  /** The order of RunEvent: the post text is appended exactly when no branch fires; a branch
      whose target is unknown still counts as fired, so nothing follows it. */
  lemma RanEventSteps(defs: seq<EventDefinition>, raw: nat -> int, w: World, e: EventDefinition, depth: nat)
    requires depth > 0
    ensures var w3 := Entered(raw, w, e);
      var r := RanEvent(defs, raw, w, Some(e), depth);
      (FirstBranch(e.branches, w3).None? ==> r == (w3.(log := Appended(w3.log, e.postEventText)), Completed)) &&
      ((FirstBranch(e.branches, w3).Some? && FindEvent(defs, FirstBranch(e.branches, w3).value.nextEventId).None?)
        ==> r == (w3, Completed)) &&
      (FirstBranch(e.branches, w3).Some? ==>
        r == RanEvent(defs, raw, w3, FindEvent(defs, FirstBranch(e.branches, w3).value.nextEventId), depth - 1))
  {
  }

  /** Running an event chain keeps what was there: the triggered ledger and the log only
      grow, at most up to the ledger's capacity, and the talents are untouched. */
  lemma {:induction false} RanEventGrows(defs: seq<EventDefinition>, raw: nat -> int, w: World,
                                         evt: Option<EventDefinition>, depth: nat)
    requires |w.triggeredEvents| <= MaxEvents
    ensures var r := RanEvent(defs, raw, w, evt, depth).0;
      w.triggeredEvents <= r.triggeredEvents && |r.triggeredEvents| <= MaxEvents &&
      w.log <= r.log && w.pos <= r.pos && w.activeTalents == r.activeTalents
    decreases depth
  {
    match evt
    case None =>
    case Some(e) =>
      if depth > 0 {
        var w3 := Entered(raw, w, e);
        EnteredGrows(raw, w, e);
        match FirstBranch(e.branches, w3)
        case Some(b) =>
          RanEventGrows(defs, raw, w3, FindEvent(defs, b.nextEventId), depth - 1);
          var r := RanEvent(defs, raw, w3, FindEvent(defs, b.nextEventId), depth - 1).0;
          assert RanEvent(defs, raw, w, evt, depth).0 == r;
          PrefixTrans(w.triggeredEvents, w3.triggeredEvents, r.triggeredEvents);
          PrefixTrans(w.log, w3.log, r.log);
        case None =>
          AppendedExtends(w3.log, e.postEventText);
          PrefixTrans(w.log, w3.log, Appended(w3.log, e.postEventText));
      }
  }

  /** An event that runs is marked triggered whenever the ledger had room, and stays marked
      whatever its branches run. */
  lemma RanEventMarks(defs: seq<EventDefinition>, raw: nat -> int, w: World, e: EventDefinition, depth: nat)
    requires |w.triggeredEvents| < MaxEvents && depth > 0
    ensures e.id in RanEvent(defs, raw, w, Some(e), depth).0.triggeredEvents
  {
    var w3 := Entered(raw, w, e);
    EnteredGrows(raw, w, e);
    match FirstBranch(e.branches, w3)
    case Some(b) =>
      RanEventGrows(defs, raw, w3, FindEvent(defs, b.nextEventId), depth - 1);
      var r := RanEvent(defs, raw, w3, FindEvent(defs, b.nextEventId), depth - 1).0;
      assert RanEvent(defs, raw, w, Some(e), depth).0 == r;
      PrefixMember(e.id, w3.triggeredEvents, r.triggeredEvents);
    case None =>
  }

  lemma PrefixMember<T>(x: T, a: seq<T>, b: seq<T>)
    requires x in a && a <= b
    ensures x in b
  {
    var k :| 0 <= k < |a| && a[k] == x;
    assert b[k] == x;
  }

  lemma PrefixTrans<T>(a: seq<T>, b: seq<T>, c: seq<T>)
    requires a <= b && b <= c
    ensures a <= c
  {
    assert c[..|a|] == b[..|a|];
  }

  // ---------------------------------------------------------------- years and the life

  /** AdvanceYear: AGE grows by one first; then, for the age definition of the new age, its
      talents are granted and an event is chosen and run. */
  function AdvancedYear(cat: Catalogue, raw: nat -> int, w: World, depth: nat): (World, Outcome)
  {
    var w1 := w.(props := w.props.(age := w.props.age + 1));
    match FindAgeDefinition(cat.ageDefinitions, w1.props.age)
    case None => (w1, Completed)
    case Some(a) =>
      var w2 := AddedAll(w1, TalentsFor(cat.talentDefinitions, a.grantedTalentIds));
      YearEvent(cat.eventDefinitions, raw, w2, a.events, depth)
  }

  /** The event half of a year: choose one of the age's events (none for an empty list) and
      run it. */
  function YearEvent(defs: seq<EventDefinition>, raw: nat -> int, w: World,
                     events: seq<WeightedEventDefinition>, depth: nat): (World, Outcome)
  {
    if |events| == 0 then (w, Completed)
    else
      var (e, p) := ChosenEvent(defs, raw, events, w);
      var w3 := w.(pos := p);
      if e.None? then (w3, Completed) else RanEvent(defs, raw, w3, e, depth)
  }

  /** A year in which no event runs ends with AGE exactly one higher and only talent grants
      and their bonuses besides. */
  lemma QuietYear(cat: Catalogue, raw: nat -> int, w: World, depth: nat)
    requires FindAgeDefinition(cat.ageDefinitions, w.props.age + 1).None? ||
      FindAgeDefinition(cat.ageDefinitions, w.props.age + 1).value.events == [] ||
      ChosenEvent(cat.eventDefinitions, raw, FindAgeDefinition(cat.ageDefinitions, w.props.age + 1).value.events,
        AddedAll(w.(props := w.props.(age := w.props.age + 1)),
          TalentsFor(cat.talentDefinitions, FindAgeDefinition(cat.ageDefinitions, w.props.age + 1).value.grantedTalentIds))).0.None?
    ensures var (r, o) := AdvancedYear(cat, raw, w, depth);
      o == Completed && r.props.age == w.props.age + 1 && r.props.lif == w.props.lif &&
      r.triggeredEvents == w.triggeredEvents && r.log == w.log
  {
    var w1 := w.(props := w.props.(age := w.props.age + 1));
    var age := FindAgeDefinition(cat.ageDefinitions, w1.props.age);
    if age.Some? {
      var grants := TalentsFor(cat.talentDefinitions, age.value.grantedTalentIds);
      var w2 := AddedAll(w1, grants);
      assert AdvancedYear(cat, raw, w, depth) == YearEvent(cat.eventDefinitions, raw, w2, age.value.events, depth);
      AddedAllOnlyTalentsAndTotal(w1, grants);
      QuietEvent(cat.eventDefinitions, raw, w2, age.value.events, depth);
    }
  }

  /** The event half of a year in which no event is chosen changes only the random position. */
  lemma QuietEvent(defs: seq<EventDefinition>, raw: nat -> int, w: World,
                   events: seq<WeightedEventDefinition>, depth: nat)
    requires |events| == 0 || ChosenEvent(defs, raw, events, w).0.None?
    ensures var (r, o) := YearEvent(defs, raw, w, events, depth);
      o == Completed && r == w.(pos := r.pos)
  {
  }

  /** The loop of RunLifeToEnd from a given state, with at most `years` more years. */
  function LivedFrom(cat: Catalogue, raw: nat -> int, w: World, years: nat, depth: nat): (World, Outcome)
    decreases years
  {
    if w.props.lif <= 0 then (w, Completed)
    else if years == 0 then (w, FuelExhausted)
    else
      var (w1, o) := AdvancedYear(cat, raw, w, depth);
      if o != Completed then (w1, o) else LivedFrom(cat, raw, w1, years - 1, depth)
  }

  /** One year of the life loop that does not end it. */
  lemma LivedFromStep(cat: Catalogue, raw: nat -> int, w: World, years: nat, depth: nat,
                      w1: World, o: Outcome)
    requires w.props.lif > 0 && years > 0
    requires (w1, o) == AdvancedYear(cat, raw, w, depth)
    ensures LivedFrom(cat, raw, w, years, depth) ==
      if o != Completed then (w1, o) else LivedFrom(cat, raw, w1, years - 1, depth)
  {
  }

  /** The life loop stops when LIF is no longer positive or the year budget is spent. */
  lemma LivedFromStop(cat: Catalogue, raw: nat -> int, w: World, years: nat, depth: nat)
    requires w.props.lif <= 0 || years == 0
    ensures LivedFrom(cat, raw, w, years, depth) == (w, if w.props.lif <= 0 then Completed else FuelExhausted)
  {
  }

  /** RunLifeToEnd: clear the log, then advance years while LIF is positive. */
  function Lived(cat: Catalogue, raw: nat -> int, w: World, years: nat, depth: nat): (World, Outcome)
  {
    LivedFrom(cat, raw, w.(log := ""), years, depth)
  }

  /** A completed life has ended with LIF <= 0; a life that starts with LIF <= 0 runs no
      year at all. */
  lemma {:induction false} LifeEndsWithoutLifespan(cat: Catalogue, raw: nat -> int, w: World, years: nat, depth: nat)
    ensures LivedFrom(cat, raw, w, years, depth).1 == Completed ==> LivedFrom(cat, raw, w, years, depth).0.props.lif <= 0
    ensures w.props.lif <= 0 ==> LivedFrom(cat, raw, w, years, depth) == (w, Completed)
    decreases years
  {
    if w.props.lif > 0 && years > 0 {
      var (w1, o) := AdvancedYear(cat, raw, w, depth);
      LivedFromStep(cat, raw, w, years, depth, w1, o);
      if o == Completed {
        LifeEndsWithoutLifespan(cat, raw, w1, years - 1, depth);
      }
    } else {
      LivedFromStop(cat, raw, w, years, depth);
    }
  }

  /** BeginLife: reset the attributes and both ledgers (TMS becomes 2 exactly when an
      inherited id > 0 is configured), insert an inherited id >= 0 straight into the ledger,
      allocate the starting attributes from Total, choose the talents, and run the life. */
  function BegunLife(cat: Catalogue, raw: nat -> int, w: World, inheritId: int, fuel: Fuel): (World, Outcome)
  {
    var w1 := Inherited(w, inheritId);
    var a := Allocate(raw, w1.pos, w1.props.total);
    var w2 := w1.(props := Allocated(w1.props, a), pos := a.pos);
    var (w3, o) := ChoseTalents(cat.talentDefinitions, raw, w2, inheritId, fuel.picks);
    if o != Completed then (w3, o) else Lived(cat, raw, w3, fuel.years, fuel.depth)
  }

  /** The state after the resets of BeginLife and the direct insert of the inherited id;
      the log and the random source are untouched. */
  function Inherited(w: World, inheritId: int): (r: World)
    ensures inheritId >= 0 ==> r.activeTalents == [inheritId]
    ensures inheritId < 0 ==> r.activeTalents == []
    ensures r.props.tms == (if inheritId > 0 then 2 else 1)
    ensures r.props.(tms := ResetProps.tms) == ResetProps && r.triggeredEvents == []
    ensures r.log == w.log && r.pos == w.pos
  {
    var props := ResetProps.(tms := if inheritId > 0 then ResetProps.tms + 1 else 1);
    var w0 := World(props, [], [], w.log, w.pos);
    if inheritId >= 0 then w0.(activeTalents := Inserted([], MaxTalents, inheritId)) else w0
  }

  /** The inherited id is active whatever the exclusive lists say, and stays active through
      talent selection. */
  lemma InheritedStaysActive(cat: Catalogue, raw: nat -> int, w: World, inheritId: int, fuel: Fuel)
    requires inheritId >= 0
    ensures var w1 := Inherited(w, inheritId);
      var a := Allocate(raw, w1.pos, w1.props.total);
      inheritId in ChoseTalents(cat.talentDefinitions, raw, w1.(props := Allocated(w1.props, a), pos := a.pos),
                                inheritId, fuel.picks).0.activeTalents
  {
    var w1 := Inherited(w, inheritId);
    var a := Allocate(raw, w1.pos, w1.props.total);
    var w2 := w1.(props := Allocated(w1.props, a), pos := a.pos);
    var g := Gather(cat.talentDefinitions, raw, w2.pos, [], fuel.picks);
    if g.outcome == Completed {
      var w3 := w2.(pos := g.pos);
      var w4 := Added(w3, FindTalent(cat.talentDefinitions, inheritId));
      var n := if |g.candidates| < TalentChoicesPerRun then |g.candidates| else TalentChoicesPerRun;
      AddedAllOnlyTalentsAndTotal(w4, g.candidates[..n]);
    }
  }

  /** Every present candidate is a talent of the catalogue. */
  predicate FromCatalogue(defs: seq<TalentDefinition>, cands: seq<Option<TalentDefinition>>)
  {
    forall k :: 0 <= k < |cands| && cands[k].Some? ==> cands[k].value in defs
  }

  /** Every candidate the loop gathers is a talent of the catalogue. */
  lemma {:induction false} GatherFromCatalogue(defs: seq<TalentDefinition>, raw: nat -> int, pos: nat,
                                               cands: seq<Option<TalentDefinition>>, fuel: nat)
    requires FromCatalogue(defs, cands)
    ensures FromCatalogue(defs, Gather(defs, raw, pos, cands, fuel).candidates)
    decreases fuel
  {
    if |cands| < TalentCandidates && fuel > 0 {
      var r := PickTalent(defs, raw, pos);
      var scan := ScanFrom(cands, r.0, 0);
      if scan == Seen {
        GatherFromCatalogue(defs, raw, r.1, cands, fuel - 1);
      } else if scan == Unseen {
        PickFromCatalogue(defs, raw, pos);
        FromCatalogueExtends(defs, cands, r.0);
        GatherFromCatalogue(defs, raw, r.1, cands + [r.0], fuel - 1);
      }
    }
  }

  /** PickRandomTalent yields a talent of the catalogue, or none. */
  lemma PickFromCatalogue(defs: seq<TalentDefinition>, raw: nat -> int, pos: nat)
    ensures PickTalent(defs, raw, pos).0.Some? ==> PickTalent(defs, raw, pos).0.value in defs
  {
    PickTalentSound(defs, raw, pos);
  }

  /** A talent of the catalogue, or none, keeps the candidates drawn from the catalogue. */
  lemma FromCatalogueExtends(defs: seq<TalentDefinition>, cands: seq<Option<TalentDefinition>>,
                             t: Option<TalentDefinition>)
    requires FromCatalogue(defs, cands) && (t.Some? ==> t.value in defs)
    ensures FromCatalogue(defs, cands + [t])
  {
    var next := cands + [t];
    assert forall k :: 0 <= k < |cands| ==> next[k] == cands[k];
  }

  /** An inherited talent keeps out every talent whose exclusive list names it: when each
      catalogue talent with id b lists the inherited id as exclusive, ChooseTalents never
      makes b active. */
  lemma InheritedExcludesRival(cat: Catalogue, raw: nat -> int, w: World, inheritId: int, fuel: Fuel, b: int)
    requires inheritId >= 0 && b != inheritId
    requires forall t :: t in cat.talentDefinitions && t.id == b ==> inheritId in t.exclusive
    ensures var w1 := Inherited(w, inheritId);
      var a := Allocate(raw, w1.pos, w1.props.total);
      b !in ChoseTalents(cat.talentDefinitions, raw, w1.(props := Allocated(w1.props, a), pos := a.pos),
                         inheritId, fuel.picks).0.activeTalents
  {
    var defs := cat.talentDefinitions;
    var w1 := Inherited(w, inheritId);
    var a := Allocate(raw, w1.pos, w1.props.total);
    var w2 := w1.(props := Allocated(w1.props, a), pos := a.pos);
    var g := Gather(defs, raw, w2.pos, [], fuel.picks);
    if g.outcome == Completed {
      var w3 := w2.(pos := g.pos);
      var found := FindTalent(defs, inheritId);
      var w4 := Added(w3, found);
      assert w4.activeTalents == [inheritId];
      var n := if |g.candidates| < TalentChoicesPerRun then |g.candidates| else TalentChoicesPerRun;
      var chosen := g.candidates[..n];
      GatherFromCatalogue(defs, raw, w2.pos, [], fuel.picks);
      assert FromCatalogue(defs, chosen) by {
        assert forall k :: 0 <= k < |chosen| ==> chosen[k] == g.candidates[k];
      }
      ExclusiveStaysOut(w4, chosen, inheritId, b);
    }
  }

  /** With an empty talent catalogue no life runs: BeginLife stops on the null dereference in
      ChooseTalents before the log is cleared. */
  lemma NoTalentsNoLife(cat: Catalogue, raw: nat -> int, w: World, inheritId: int, fuel: Fuel)
    requires cat.talentDefinitions == [] && fuel.picks >= 2
    ensures BegunLife(cat, raw, w, inheritId, fuel).1 == NullDereference
    ensures BegunLife(cat, raw, w, inheritId, fuel).0.log == w.log
  {
    var w1 := Inherited(w, inheritId);
    var a := Allocate(raw, w1.pos, w1.props.total);
    EmptyCatalogueDereferencesNull(raw, a.pos, fuel.picks);
  }
}
