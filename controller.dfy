/**
 * LifeGameController: the object that owns the attribute vector, the two ledgers, the log and
 * the random source, and runs a life on them.  Every method is proved to leave the state the
 * corresponding function of module Simulation describes.
 */
module Controller {
  import opened Wrappers
  import opened RandomSource
  import opened Effects
  import opened Ledgers
  import opened Catalogue
  import opened Simulation

  class LifeGameController {
    const talentDefinitions: seq<TalentDefinition>
    const ageDefinitions: seq<AgeDefinition>
    const eventDefinitions: seq<EventDefinition>
    /** The inherited talent id; negative means none. */
    const inheritTalentId: int

    const propertyState: PropertyState
    const talentState: TalentRuntimeState
    const eventState: EventRuntimeState
    const random: Random

    var lastLog: string
    /** The talents of each grade 0..3, in catalogue order, once BuildLookups has run. */
    var talentByGrade: seq<seq<TalentDefinition>>

    ghost predicate Valid()
      reads this, talentState, talentState.activeIds, talentState.triggeredIds, eventState, eventState.triggeredIds
    {
      talentState.Valid() && eventState.Valid() &&
      talentState.activeIds != eventState.triggeredIds && talentState.triggeredIds != eventState.triggeredIds
    }

    /** BuildLookups has run: bucket g holds the talents of grade g. */
    predicate LookupsBuilt()
      reads this
    {
      |talentByGrade| == GradeCount &&
      forall g :: 0 <= g < GradeCount ==> talentByGrade[g] == GradeBucket(talentDefinitions, g)
    }

    function Cat(): Catalogue
    {
      Catalogue(talentDefinitions, ageDefinitions, eventDefinitions)
    }

    /** The life's state as the functions of Simulation see it. */
    function State(): World
      reads this, propertyState, talentState, talentState.activeIds, talentState.triggeredIds,
            eventState, eventState.triggeredIds, random
      requires Valid()
    {
      World(propertyState.Value(), talentState.Active(), eventState.Triggered(), lastLog, random.pos)
    }

    constructor (talentDefinitions: seq<TalentDefinition>, ageDefinitions: seq<AgeDefinition>,
                 eventDefinitions: seq<EventDefinition>, inheritTalentId: int, random: Random)
      ensures Valid() && fresh(propertyState) && fresh(talentState) && fresh(eventState)
      ensures this.talentDefinitions == talentDefinitions && this.ageDefinitions == ageDefinitions
      ensures this.eventDefinitions == eventDefinitions && this.inheritTalentId == inheritTalentId
      ensures this.random == random && talentByGrade == []
      ensures State() == World(ResetProps, [], [], "", random.pos)
    {
      this.talentDefinitions := talentDefinitions;
      this.ageDefinitions := ageDefinitions;
      this.eventDefinitions := eventDefinitions;
      this.inheritTalentId := inheritTalentId;
      propertyState := new PropertyState();
      talentState := new TalentRuntimeState();
      eventState := new EventRuntimeState();
      this.random := random;
      lastLog := "";
      talentByGrade := [];
    }

    /** Partition the talents by grade: one bucket per grade 0..3. */
    method BuildLookups()
      modifies this`talentByGrade
      ensures LookupsBuilt()
    {
      var buckets := new seq<TalentDefinition>[GradeCount];
      for grade := 0 to buckets.Length
        invariant forall g :: 0 <= g < grade ==> buckets[g] == GradeBucket(talentDefinitions, g)
      {
        buckets[grade] := BucketOf(talentDefinitions, grade);
      }
      talentByGrade := buckets[..];
    }

    /** One bucket of BuildLookups: count the talents of the grade, then copy them into a
        buffer of exactly that size, in catalogue order. */
    static method BucketOf(defs: seq<TalentDefinition>, grade: int) returns (bucket: seq<TalentDefinition>)
      ensures bucket == GradeBucket(defs, grade)
    {
      var count := CountGrade(defs, grade);
      var buffer := new TalentDefinition[count];
      FillGrade(defs, grade, buffer);
      bucket := buffer[..];
    }

    /** The counting pass of a bucket. */
    static method CountGrade(defs: seq<TalentDefinition>, grade: int) returns (count: nat)
      ensures count == |GradeBucket(defs, grade)|
    {
      count := 0;
      for i := 0 to |defs|
        invariant count == GradeCountOf(defs[..i], grade)
      {
        GradeStep(defs, i, grade);
        if defs[i].grade == grade {
          count := count + 1;
        }
      }
      assert defs[..|defs|] == defs;
    }

    /** The filling pass of a bucket, into a buffer sized by the counting pass. */
    static method FillGrade(defs: seq<TalentDefinition>, grade: int, buffer: array<TalentDefinition>)
      requires buffer.Length == |GradeBucket(defs, grade)|
      modifies buffer
      ensures buffer[..] == GradeBucket(defs, grade)
    {
      var index := 0;
      for i := 0 to |defs|
        invariant index == GradeCountOf(defs[..i], grade) && index <= buffer.Length
        invariant buffer[..index] == GradeBucket(defs[..i], grade)
      {
        GradeStep(defs, i, grade);
        CountPrefixBound(defs, i + 1, grade);
        if defs[i].grade == grade {
          buffer[index] := defs[i];
          index := index + 1;
        }
      }
      assert defs[..|defs|] == defs;
      assert buffer[..] == buffer[..index];
    }

    /** Draw one talent: the grade from the probability table, then an index into its bucket. */
    method PickRandomTalent() returns (talent: Option<TalentDefinition>)
      requires LookupsBuilt()
      modifies random
      ensures (talent, random.pos) == PickTalent(talentDefinitions, random.raw, old(random.pos))
    {
      var value := random.Next(0, GradeResolution + 1);
      ghost var drawn := value;
      var grade := 3;
      while grade >= 0
        invariant -1 <= grade <= 3
        invariant GradeScan(value, grade) == GradeScan(drawn, 3)
        decreases grade + 1
      {
        value := value - GradeOdds[grade];
        if value <= 0 {
          assert GradeScan(drawn, 3) == grade;
          break;
        }
        grade := grade - 1;
      }
      if grade < 0 {
        grade := 0;
      }
      var pool := talentByGrade[Clamp(grade, 0, |talentByGrade| - 1)];
      if |pool| == 0 {
        talent := if |talentDefinitions| > 0 then Some(talentDefinitions[0]) else None;
        return;
      }
      var index := random.Next(0, |pool|);
      talent := Some(pool[index]);
    }

    /** The duplicate scan of ChooseTalents over the first `count` candidates. */
    static method ScanCandidates(candidates: array<Option<TalentDefinition>>, count: nat,
                                 talent: Option<TalentDefinition>) returns (scan: Scan)
      requires count <= candidates.Length
      ensures scan == ScanFrom(candidates[..count], talent, 0)
    {
      var i := 0;
      while i < count
        invariant 0 <= i <= count
        invariant ScanFrom(candidates[..count], talent, i) == ScanFrom(candidates[..count], talent, 0)
      {
        if candidates[i].None? || talent.None? {
          return NullCandidate;
        }
        if candidates[i].value.id == talent.value.id {
          return Seen;
        }
        i := i + 1;
      }
      return Unseen;
    }

    /** One draw of the candidate loop: pick a talent, scan the candidates for its id and
        store it after them when it is new. */
    method DrawCandidate(buffer: array<Option<TalentDefinition>>, count: nat)
      returns (talent: Option<TalentDefinition>, scan: Scan)
      requires LookupsBuilt() && count < buffer.Length
      modifies random, buffer
      ensures (talent, random.pos) == PickTalent(talentDefinitions, random.raw, old(random.pos))
      ensures scan == ScanFrom(old(buffer[..count]), talent, 0)
      ensures buffer[..count] == old(buffer[..count])
      ensures scan == Unseen ==> buffer[..count + 1] == old(buffer[..count]) + [talent]
      ensures scan == Unseen ==> buffer[..] == old(buffer[..])[count := talent]
      ensures scan != Unseen ==> buffer[..] == old(buffer[..])
    {
      talent := PickRandomTalent();
      scan := ScanCandidates(buffer, count, talent);
      if scan == Unseen {
        buffer[count] := talent;
        assert buffer[..count + 1] == old(buffer[..count]) + [talent];
      }
    }

    /** The candidate loop of ChooseTalents: draw talents until ten with distinct ids are
        collected.  `fuel` bounds the number of draws. */
    method GatherCandidates(fuel: nat) returns (candidates: seq<Option<TalentDefinition>>, outcome: Outcome)
      requires LookupsBuilt()
      modifies random
      ensures Gathered(candidates, random.pos, outcome) == Gather(talentDefinitions, random.raw, old(random.pos), [], fuel)
    {
      ghost var g := Gather(talentDefinitions, random.raw, random.pos, [], fuel);
      var buffer := new Option<TalentDefinition>[TalentCandidates];
      var candidateCount := 0;
      var picks := 0;
      ghost var cands: seq<Option<TalentDefinition>> := [];
      while candidateCount < TalentCandidates
        invariant 0 <= candidateCount <= TalentCandidates && picks <= fuel
        invariant buffer[..candidateCount] == cands
        invariant Gather(talentDefinitions, random.raw, random.pos, cands, fuel - picks) == g
        decreases fuel - picks
      {
        if picks == fuel {
          return buffer[..candidateCount], FuelExhausted;
        }
        ghost var pos := random.pos;
        var talent, scan := DrawCandidate(buffer, candidateCount);
        ghost var next := if scan == Unseen then cands + [talent] else cands;
        GatherStep(talentDefinitions, random.raw, pos, cands, fuel - picks, talent, random.pos, scan, next);
        if scan == NullCandidate {
          return buffer[..candidateCount], NullDereference;
        }
        picks := picks + 1;
        if scan == Unseen {
          candidateCount := candidateCount + 1;
        }
        cands := next;
      }
      return buffer[..], Completed;
    }

    /** Collect the candidates, then acquire the inherited talent and the first three. */
    method ChooseTalents(fuel: nat) returns (outcome: Outcome)
      requires Valid() && LookupsBuilt()
      modifies propertyState, talentState`activeCount, talentState.activeIds, random
      ensures Valid()
      ensures (State(), outcome) == ChoseTalents(talentDefinitions, random.raw, old(State()), inheritTalentId, fuel)
      ensures talentState.Triggered() == old(talentState.Triggered())
    {
      ghost var w0 := State();
      var candidates;
      candidates, outcome := GatherCandidates(fuel);
      ghost var w1 := w0.(pos := random.pos);
      assert State() == w1;
      if outcome != Completed {
        return;
      }
      if inheritTalentId >= 0 {
        var inherited := FindTalent(talentDefinitions, inheritTalentId);
        if inherited.Some? {
          AddTalent(inherited);
        }
      }
      ghost var w2 := State();
      assert w2 == if inheritTalentId >= 0 then Added(w1, FindTalent(talentDefinitions, inheritTalentId)) else w1;
      var n := if |candidates| < TalentChoicesPerRun then |candidates| else TalentChoicesPerRun;
      AcquireCandidates(candidates[..n]);
    }

    /** The acquisition loop of ChooseTalents. */
    method AcquireCandidates(talents: seq<Option<TalentDefinition>>)
      requires Valid()
      modifies propertyState, talentState`activeCount, talentState.activeIds
      ensures Valid() && State() == AddedAll(old(State()), talents)
      ensures talentState.Triggered() == old(talentState.Triggered())
    {
      ghost var w := State();
      for i := 0 to |talents|
        invariant Valid() && State() == AddedAll(w, talents[..i])
      {
        assert talents[..i + 1][..i] == talents[..i];
        AddTalent(talents[i]);
      }
      assert talents[..|talents|] == talents;
    }

    /** Acquire a talent unless it is missing or one of its exclusive ids is active; the
        status bonus is added whether or not the ledger took the id. */
    method AddTalent(talent: Option<TalentDefinition>)
      requires Valid()
      modifies propertyState, talentState`activeCount, talentState.activeIds
      ensures Valid() && State() == Added(old(State()), talent)
      ensures talentState.Triggered() == old(talentState.Triggered())
    {
      if talent.None? {
        return;
      }
      var t := talent.value;
      for i := 0 to |t.exclusive|
        invariant forall k :: 0 <= k < i ==> t.exclusive[k] !in talentState.Active()
      {
        if talentState.Contains(t.exclusive[i]) {
          ContainsAnySound(talentState.Active(), t.exclusive);
          return;
        }
      }
      ContainsAnySound(talentState.Active(), t.exclusive);
      talentState.AddTalent(t.id);
      propertyState.Total := propertyState.Total + t.statusBonus;
    }

    /** Split Total over CHR, INT and STR (each at most 10) and give MNY the rest. */
    method AllocateInitialProperties(total: int)
      requires Valid()
      modifies propertyState, random
      ensures Valid()
      ensures var a := Allocate(random.raw, old(random.pos), total);
        State() == old(State()).(props := Allocated(old(State()).props, a), pos := a.pos)
    {
      var values := AllocationLoop(random, total);
      propertyState.CHR := values[0];
      propertyState.INT := values[1];
      propertyState.STR := values[2];
      propertyState.MNY := values[3];
    }

    /** The loop of AllocateInitialProperties: three rounds, each drawing a value in
        0..min(10, remaining) while budget remains; the fourth slot gets the rest. */
    static method AllocationLoop(random: Random, total: int) returns (values: array<int>)
      modifies random
      ensures fresh(values) && values.Length == 4
      ensures var a := Allocate(random.raw, old(random.pos), total);
        values[..3] == a.values && values[3] == a.remaining && random.pos == a.pos
    {
      ghost var pos0 := random.pos;
      var remaining := if total > 0 then total else 0;
      values := new int[4];
      for i := 0 to AllocatedAttributes
        invariant AllocateRounds(random.raw, pos0, total, i) == Allocation(values[..i], remaining, random.pos)
      {
        ghost var before := Allocation(values[..i], remaining, random.pos);
        var value := 0;
        if remaining > 0 {
          value := random.Next(0, remaining + 1);
        }
        value := Min(10, value);
        values[i] := value;
        assert values[..i + 1] == before.values + [value];
        remaining := remaining - value;
        if remaining < 0 {
          remaining := 0;
        }
        assert Allocation(values[..i + 1], remaining, random.pos) == Round(random.raw, before);
      }
      values[3] := remaining;
    }

    /** Append a non-empty text to the log, on a new line unless the log is empty. */
    method AppendLog(text: string)
      modifies this`lastLog
      ensures lastLog == Appended(old(lastLog), text)
    {
      if text == "" {
        return;
      }
      if lastLog == "" {
        lastLog := text;
      } else {
        lastLog := lastLog + "\n" + text;
      }
    }

    /** Pick an event of an age: sum the clamped weights of the entries that pass the
        filters, draw a roll, and walk the entries again subtracting weights. */
    method ChooseEvent(events: seq<WeightedEventDefinition>) returns (evt: Option<EventDefinition>)
      requires Valid() && |events| > 0
      modifies random
      ensures (evt, random.pos) == ChosenEvent(eventDefinitions, random.raw, events, old(State()))
    {
      var w := State();
      var totalWeight := SumWeights(eventDefinitions, events, w);
      if totalWeight <= 0 {
        return None;
      }
      var roll := random.Next(0, totalWeight + 1);
      evt := PickEntry(eventDefinitions, events, w, roll);
      if evt.None? {
        evt := FindEvent(eventDefinitions, events[0].eventId);
      }
    }

    /** The first pass of ChooseEvent. */
    static method SumWeights(defs: seq<EventDefinition>, events: seq<WeightedEventDefinition>, w: World)
      returns (totalWeight: nat)
      ensures totalWeight == TotalWeight(defs, events, w)
    {
      totalWeight := 0;
      for i := 0 to |events|
        invariant totalWeight == TotalWeight(defs, events[..i], w)
      {
        TotalWeightAppend(defs, events[..i], [events[i]], w);
        assert events[..i + 1] == events[..i] + [events[i]];
        var candidate := Eligible(defs, events[i], w);
        if candidate.Some? {
          totalWeight := totalWeight + Clamped(events[i].weight);
        }
      }
      assert events[..|events|] == events;
    }

    /** The second pass of ChooseEvent: none when no entry hits. */
    static method PickEntry(defs: seq<EventDefinition>, events: seq<WeightedEventDefinition>, w: World, roll: int)
      returns (evt: Option<EventDefinition>)
      ensures evt == PickFrom(defs, events, w, roll)
    {
      var left := roll;
      for i := 0 to |events|
        invariant PickFrom(defs, events[i..], w, left) == PickFrom(defs, events, w, roll)
      {
        var candidate := Eligible(defs, events[i], w);
        PickFromAt(defs, events, i, w, left, candidate);
        if candidate.Some? {
          left := left - Clamped(events[i].weight);
          if left <= 0 {
            return candidate;
          }
        }
      }
      return None;
    }

    /** Run an event: mark it, apply its effect, log its description, then follow the first
        branch that fires, or log the post text when none does.  `depth` bounds the chain. */
    method RunEvent(evt: Option<EventDefinition>, depth: nat) returns (outcome: Outcome)
      requires Valid()
      modifies this`lastLog, propertyState, eventState, eventState.triggeredIds, random
      ensures Valid()
      ensures (State(), outcome) == RanEvent(eventDefinitions, random.raw, old(State()), evt, depth)
      decreases depth
    {
      if evt.None? {
        return Completed;
      }
      if depth == 0 {
        return DepthExhausted;
      }
      var e := evt.value;
      EnterEvent(e);
      ghost var w3 := State();
      var branch := FindFirstBranch(e.branches, State());
      if branch.Some? {
        outcome := RunEvent(FindEvent(eventDefinitions, branch.value.nextEventId), depth - 1);
        return;
      }
      AppendLog(e.postEventText);
      assert State() == w3.(log := Appended(w3.log, e.postEventText));
      outcome := Completed;
    }

    /** Steps 1 to 3 of RunEvent: mark the event, apply its effect, log its description. */
    method EnterEvent(e: EventDefinition)
      requires Valid()
      modifies this`lastLog, propertyState, eventState, eventState.triggeredIds, random
      ensures Valid() && State() == Entered(random.raw, old(State()), e)
    {
      eventState.MarkTriggered(e.id);
      propertyState.Apply(e.effect, random);
      AppendLog(e.description);
    }

    /** The branch scan of RunEvent: the first branch with no condition or a condition that
        holds. */
    static method FindFirstBranch(branches: seq<EventBranchDefinition>, w: World)
      returns (branch: Option<EventBranchDefinition>)
      ensures branch == FirstBranch(branches, w)
    {
      for i := 0 to |branches|
        invariant FirstBranch(branches[i..], w) == FirstBranch(branches, w)
      {
        assert branches[i..][1..] == branches[i + 1..];
        if branches[i].condition.None? || Holds(branches[i].condition.value, w) {
          return Some(branches[i]);
        }
      }
      return None;
    }

    /** One year: AGE grows by one, then the age definition's talents are granted and one of
        its events is chosen and run. */
    method AdvanceYear(depth: nat) returns (outcome: Outcome)
      requires Valid()
      modifies this`lastLog, propertyState, talentState`activeCount, talentState.activeIds, eventState,
               eventState.triggeredIds, random
      ensures Valid()
      ensures (State(), outcome) == AdvancedYear(Cat(), random.raw, old(State()), depth)
      ensures talentState.Triggered() == old(talentState.Triggered())
    {
      ghost var w0 := State();
      ghost var triggered := talentState.Triggered();
      propertyState.AGE := propertyState.AGE + 1;
      ghost var w1 := State();
      assert w1 == w0.(props := w0.props.(age := w0.props.age + 1));
      var age := FindAgeDefinition(ageDefinitions, propertyState.AGE);
      if age.None? {
        return Completed;
      }
      GrantTalents(age.value.grantedTalentIds);
      assert talentState.Triggered() == triggered;
      outcome := RunYearEvent(age.value.events, depth);
    }

    /** The event half of AdvanceYear: choose one of the age's events and run it. */
    method RunYearEvent(events: seq<WeightedEventDefinition>, depth: nat) returns (outcome: Outcome)
      requires Valid()
      modifies this`lastLog, propertyState, eventState, eventState.triggeredIds, random
      ensures Valid()
      ensures (State(), outcome) == YearEvent(eventDefinitions, random.raw, old(State()), events, depth)
    {
      if |events| == 0 {
        return Completed;
      }
      ghost var w2 := State();
      ghost var chosen := ChosenEvent(eventDefinitions, random.raw, events, w2);
      var evt := ChooseEvent(events);
      ghost var w3 := State();
      assert w3 == w2.(pos := chosen.1);
      if evt.Some? {
        outcome := RunEvent(evt, depth);
        return;
      }
      outcome := Completed;
    }

    /** The grant loop of AdvanceYear: acquire the talent of each id that resolves. */
    method GrantTalents(ids: seq<int>)
      requires Valid()
      modifies propertyState, talentState`activeCount, talentState.activeIds
      ensures Valid() && State() == AddedAll(old(State()), TalentsFor(talentDefinitions, ids))
      ensures talentState.Triggered() == old(talentState.Triggered())
    {
      ghost var w := State();
      for i := 0 to |ids|
        invariant Valid() && State() == AddedAll(w, TalentsFor(talentDefinitions, ids[..i]))
      {
        ghost var grants := TalentsFor(talentDefinitions, ids[..i + 1]);
        assert grants[..i] == TalentsFor(talentDefinitions, ids[..i]) && grants[i] == FindTalent(talentDefinitions, ids[i]);
        var talent := FindTalent(talentDefinitions, ids[i]);
        if talent.Some? {
          AddTalent(talent);
        }
      }
      assert ids[..|ids|] == ids;
    }

    /** Clear the log and advance years while LIF is positive; `years` bounds the loop. */
    method RunLifeToEnd(years: nat, depth: nat) returns (outcome: Outcome)
      requires Valid()
      modifies this`lastLog, propertyState, talentState`activeCount, talentState.activeIds, eventState,
               eventState.triggeredIds, random
      ensures Valid()
      ensures (State(), outcome) == Lived(Cat(), random.raw, old(State()), years, depth)
      ensures talentState.Triggered() == old(talentState.Triggered())
    {
      ghost var target := Lived(Cat(), random.raw, State(), years, depth);
      lastLog := "";
      var left := years;
      ghost var cur := State();
      while propertyState.LIF > 0
        invariant Valid() && State() == cur && LivedFrom(Cat(), random.raw, cur, left, depth) == target
        decreases left
      {
        if left == 0 {
          return FuelExhausted;
        }
        outcome := LiveYear(left, depth);
        if outcome != Completed {
          return;
        }
        left := left - 1;
        cur := State();
      }
      outcome := Completed;
    }

    /** One pass of the life loop: advance a year, as LivedFrom does while LIF is positive. */
    method LiveYear(ghost years: nat, depth: nat) returns (outcome: Outcome)
      requires Valid() && propertyState.LIF > 0 && years > 0
      modifies propertyState, talentState`activeCount, talentState.activeIds, eventState,
               eventState.triggeredIds, random, this`lastLog
      ensures Valid()
      ensures outcome != Completed ==> (State(), outcome) == LivedFrom(Cat(), random.raw, old(State()), years, depth)
      ensures outcome == Completed ==>
        LivedFrom(Cat(), random.raw, State(), years - 1, depth) == LivedFrom(Cat(), random.raw, old(State()), years, depth)
      ensures talentState.Triggered() == old(talentState.Triggered())
    {
      ghost var w := State();
      outcome := AdvanceYear(depth);
      LivedFromStep(Cat(), random.raw, w, years, depth, State(), outcome);
    }

    /** The resets at the start of BeginLife and the direct insert of the inherited id. */
    method ResetForLife()
      requires Valid()
      modifies propertyState, talentState, talentState.activeIds, eventState, eventState.triggeredIds
      ensures Valid() && State() == Inherited(old(State()), inheritTalentId)
      ensures talentState.Triggered() == []
    {
      propertyState.Reset();
      talentState.Reset();
      eventState.Reset();
      propertyState.TMS := if inheritTalentId > 0 then propertyState.TMS + 1 else 1;
      ghost var props := ResetProps.(tms := if inheritTalentId > 0 then ResetProps.tms + 1 else 1);
      assert Valid() && State() == World(props, [], [], old(lastLog), old(random.pos));
      if inheritTalentId >= 0 {
        talentState.AddTalent(inheritTalentId);
      }
    }

    /** Start a life: reset everything, bump TMS for an inherited talent, insert the inherited
        id directly, allocate the attributes, choose the talents and run the life. */
    method BeginLife(fuel: Fuel) returns (outcome: Outcome)
      requires Valid() && LookupsBuilt()
      modifies this`lastLog, propertyState, talentState, talentState.activeIds, eventState,
               eventState.triggeredIds, random
      ensures Valid()
      ensures (State(), outcome) == BegunLife(Cat(), random.raw, old(State()), inheritTalentId, fuel)
      ensures talentState.Triggered() == []
    {
      ResetForLife();
      ghost var w1 := State();
      AllocateInitialProperties(propertyState.Total);
      ghost var a := Allocate(random.raw, w1.pos, w1.props.total);
      ghost var w2 := State();
      assert w2 == w1.(props := Allocated(w1.props, a), pos := a.pos);
      outcome := ChooseTalents(fuel.picks);
      assert (State(), outcome) == ChoseTalents(talentDefinitions, random.raw, w2, inheritTalentId, fuel.picks);
      if outcome != Completed {
        return;
      }
      ghost var w3 := State();
      outcome := RunLifeToEnd(fuel.years, fuel.depth);
      assert (State(), outcome) == Lived(Cat(), random.raw, w3, fuel.years, fuel.depth);
    }
  }
}
