/**
 * The condition language: single predicates over the attributes and the two ledgers, and
 * groups that combine them with ALL-then-ANY semantics.  Evaluation is pure.
 */
module Conditions {
  import opened Effects
  import opened Ledgers

  datatype ConditionMode =
    | None
    | PropertyGreaterOrEqual
    | PropertyGreater
    | PropertyLessOrEqual
    | PropertyLess
    | PropertyEqual
    | PropertyNotEqual
    | HasTalent
    | NotHasTalent
    | HasEvent
    | NotHasEvent

  datatype ConditionDefinition = ConditionDefinition(
    mode: ConditionMode, property: PropertyKey, threshold: int, idList: seq<int>)

  /** A missing `all` or `any` array is the empty sequence: the source treats both alike. */
  datatype ConditionGroup = ConditionGroup(
    all: seq<ConditionDefinition>, any: seq<ConditionDefinition>)

  /** ConditionDefinition.Evaluate against the attributes, the active talents and the
      triggered events. */
  function Evaluate(c: ConditionDefinition, p: Props, talents: seq<int>, events: seq<int>): (r: bool)
    ensures c.mode == None ==> r
    ensures (c.mode == HasTalent || c.mode == HasEvent) && |c.idList| == 0 ==> !r
    ensures (c.mode == NotHasTalent || c.mode == NotHasEvent) && |c.idList| == 0 ==> r
  {
    match c.mode
    case None => true
    case PropertyGreaterOrEqual => Get(p, c.property) >= c.threshold
    case PropertyGreater => Get(p, c.property) > c.threshold
    case PropertyLessOrEqual => Get(p, c.property) <= c.threshold
    case PropertyLess => Get(p, c.property) < c.threshold
    case PropertyEqual => Get(p, c.property) == c.threshold
    case PropertyNotEqual => Get(p, c.property) != c.threshold
    case HasTalent => ContainsAny(talents, c.idList)
    case NotHasTalent => !ContainsAny(talents, c.idList)
    case HasEvent => ContainsAny(events, c.idList)
    case NotHasEvent => !ContainsAny(events, c.idList)
  }

  /** HasTalent and HasEvent hold exactly when some listed id is in the ledger; their
      negations exactly when none is. */
  lemma EvaluateSound(c: ConditionDefinition, p: Props, talents: seq<int>, events: seq<int>)
    ensures c.mode == HasTalent ==>
      (Evaluate(c, p, talents, events) <==> exists k :: 0 <= k < |c.idList| && c.idList[k] in talents)
    ensures c.mode == NotHasTalent ==>
      (Evaluate(c, p, talents, events) <==> forall k :: 0 <= k < |c.idList| ==> c.idList[k] !in talents)
    ensures c.mode == HasEvent ==>
      (Evaluate(c, p, talents, events) <==> exists k :: 0 <= k < |c.idList| && c.idList[k] in events)
    ensures c.mode == NotHasEvent ==>
      (Evaluate(c, p, talents, events) <==> forall k :: 0 <= k < |c.idList| ==> c.idList[k] !in events)
  {
    ContainsAnySound(talents, c.idList);
    ContainsAnySound(events, c.idList);
  }

  /** The mode that holds exactly when the given one does not. */
  function Opposite(mode: ConditionMode): ConditionMode
    requires mode != None
  {
    match mode
    case PropertyGreaterOrEqual => PropertyLess
    case PropertyGreater => PropertyLessOrEqual
    case PropertyLessOrEqual => PropertyGreater
    case PropertyLess => PropertyGreaterOrEqual
    case PropertyEqual => PropertyNotEqual
    case PropertyNotEqual => PropertyEqual
    case HasTalent => NotHasTalent
    case NotHasTalent => HasTalent
    case HasEvent => NotHasEvent
    case NotHasEvent => HasEvent
  }

  /** The five pairs of modes are complements of each other. */
  lemma OppositeNegates(c: ConditionDefinition, p: Props, talents: seq<int>, events: seq<int>)
    requires c.mode != None
    ensures Evaluate(c.(mode := Opposite(c.mode)), p, talents, events) == !Evaluate(c, p, talents, events)
  {
  }

  /** The ALL loop from position i on: false at the first predicate that fails. */
  function AllFrom(cs: seq<ConditionDefinition>, i: nat, p: Props, talents: seq<int>, events: seq<int>): (r: bool)
    requires i <= |cs|
    decreases |cs| - i
  {
    i == |cs| || (Evaluate(cs[i], p, talents, events) && AllFrom(cs, i + 1, p, talents, events))
  }

  lemma {:induction false} AllFromSound(cs: seq<ConditionDefinition>, i: nat, p: Props, talents: seq<int>, events: seq<int>)
    requires i <= |cs|
    ensures AllFrom(cs, i, p, talents, events) <==> forall k :: i <= k < |cs| ==> Evaluate(cs[k], p, talents, events)
    decreases |cs| - i
  {
    if i < |cs| {
      AllFromSound(cs, i + 1, p, talents, events);
    }
  }

  /** The ANY loop from position i on: true at the first predicate that holds. */
  function AnyFrom(cs: seq<ConditionDefinition>, i: nat, p: Props, talents: seq<int>, events: seq<int>): (r: bool)
    requires i <= |cs|
    decreases |cs| - i
  {
    i < |cs| && (Evaluate(cs[i], p, talents, events) || AnyFrom(cs, i + 1, p, talents, events))
  }

  lemma {:induction false} AnyFromSound(cs: seq<ConditionDefinition>, i: nat, p: Props, talents: seq<int>, events: seq<int>)
    requires i <= |cs|
    ensures AnyFrom(cs, i, p, talents, events) <==> exists k :: i <= k < |cs| && Evaluate(cs[k], p, talents, events)
    decreases |cs| - i
  {
    if i < |cs| {
      AnyFromSound(cs, i + 1, p, talents, events);
    }
  }

  /** ConditionGroup.Evaluate: every ALL predicate holds, and the ANY list is empty or one of
      its predicates holds.  So the empty group holds. */
  function EvaluateGroup(g: ConditionGroup, p: Props, talents: seq<int>, events: seq<int>): (r: bool)
    ensures g.all == [] && g.any == [] ==> r
  {
    if !AllFrom(g.all, 0, p, talents, events) then false
    else if |g.any| > 0 then AnyFrom(g.any, 0, p, talents, events)
    else true
  }

  /** The group semantics in one formula. */
  lemma EvaluateGroupSound(g: ConditionGroup, p: Props, talents: seq<int>, events: seq<int>)
    ensures EvaluateGroup(g, p, talents, events) <==>
      (forall k :: 0 <= k < |g.all| ==> Evaluate(g.all[k], p, talents, events)) &&
      (|g.any| == 0 || exists k :: 0 <= k < |g.any| && Evaluate(g.any[k], p, talents, events))
  {
    AllFromSound(g.all, 0, p, talents, events);
    AnyFromSound(g.any, 0, p, talents, events);
  }
}
