/**
 * The read-only catalogues (talents, ages, events), the linear lookups by id and the
 * partition of the talents by grade that BuildLookups computes.
 */
module Catalogue {
  import opened Wrappers
  import opened Effects
  import Conditions

  /** A talent.  Its display strings, its effect and its acquisition condition are never
      read by the engine and are not modelled. */
  datatype TalentDefinition = TalentDefinition(
    id: int, grade: int, statusBonus: int, exclusive: seq<int>)

  datatype EventBranchDefinition = EventBranchDefinition(
    condition: Option<Conditions.ConditionGroup>, nextEventId: int)

  /** An event; a missing text is the empty string (the source tests IsNullOrEmpty). */
  datatype EventDefinition = EventDefinition(
    id: int,
    description: string,
    noRandom: bool,
    includeCondition: Option<Conditions.ConditionGroup>,
    excludeCondition: Option<Conditions.ConditionGroup>,
    effect: Option<PropertyEffect>,
    postEventText: string,
    branches: seq<EventBranchDefinition>)

  /** A weighted candidate of an age; the weight is an integer (see README). */
  datatype WeightedEventDefinition = WeightedEventDefinition(eventId: int, weight: int)

  datatype AgeDefinition = AgeDefinition(
    age: int, events: seq<WeightedEventDefinition>, grantedTalentIds: seq<int>)

  datatype Catalogue = Catalogue(
    talentDefinitions: seq<TalentDefinition>,
    ageDefinitions: seq<AgeDefinition>,
    eventDefinitions: seq<EventDefinition>)

  /** The position of the first occurrence of `key`, the shared shape of the Find* loops. */
  function FirstIndex(keys: seq<int>, key: int): (r: Option<nat>)
    ensures r.None? <==> key !in keys
    ensures r.Some? ==> r.value < |keys| && keys[r.value] == key && key !in keys[..r.value]
  {
    if |keys| == 0 then None
    else if keys[0] == key then Some(0)
    else
      match FirstIndex(keys[1..], key)
      case None => None
      case Some(k) =>
        assert keys[..k + 1] == [keys[0]] + keys[1..][..k];
        Some(k + 1)
  }

  function TalentIds(defs: seq<TalentDefinition>): seq<int>
  {
    seq(|defs|, k requires 0 <= k < |defs| => defs[k].id)
  }

  function EventIds(defs: seq<EventDefinition>): seq<int>
  {
    seq(|defs|, k requires 0 <= k < |defs| => defs[k].id)
  }

  function Ages(defs: seq<AgeDefinition>): seq<int>
  {
    seq(|defs|, k requires 0 <= k < |defs| => defs[k].age)
  }

  /** FindTalent: the first talent with the id, or none when no talent has it. */
  function FindTalent(defs: seq<TalentDefinition>, id: int): (r: Option<TalentDefinition>)
    ensures r.Some? ==> r.value.id == id
  {
    var keys := TalentIds(defs);
    match FirstIndex(keys, id)
    case None => None
    case Some(k) => Some(defs[k])
  }

  /** FindTalent finds nothing exactly when no entry has the id, and otherwise the first
      entry that has it. */
  lemma FindTalentSound(defs: seq<TalentDefinition>, id: int)
    ensures FindTalent(defs, id).None? <==> forall k :: 0 <= k < |defs| ==> defs[k].id != id
    ensures FindTalent(defs, id).Some? ==>
      exists k :: 0 <= k < |defs| && defs[k] == FindTalent(defs, id).value && forall j :: 0 <= j < k ==> defs[j].id != id
  {
    var keys := TalentIds(defs);
    match FirstIndex(keys, id)
    case None =>
      assert forall k :: 0 <= k < |defs| ==> defs[k].id == keys[k];
    case Some(k) =>
      assert forall j :: 0 <= j < k ==> defs[j].id == keys[..k][j];
  }

  /** FindEvent: the first event with the id, or none when no event has it. */
  function FindEvent(defs: seq<EventDefinition>, id: int): (r: Option<EventDefinition>)
    ensures r.Some? ==> r.value.id == id
  {
    var ids := EventIds(defs);
    match FirstIndex(ids, id)
    case None => None
    case Some(k) => Some(defs[k])
  }

  /** FindEvent finds nothing exactly when no event has the id, and otherwise the first
      event that has it. */
  lemma FindEventSound(defs: seq<EventDefinition>, id: int)
    ensures FindEvent(defs, id).None? <==> forall k :: 0 <= k < |defs| ==> defs[k].id != id
    ensures FindEvent(defs, id).Some? ==>
      exists k :: 0 <= k < |defs| && defs[k] == FindEvent(defs, id).value && forall j :: 0 <= j < k ==> defs[j].id != id
  {
    var ids := EventIds(defs);
    match FirstIndex(ids, id)
    case None =>
      assert forall k :: 0 <= k < |defs| ==> defs[k].id == ids[k];
    case Some(k) =>
      assert forall j :: 0 <= j < k ==> defs[j].id == ids[..k][j];
  }

  /** FindAgeDefinition: the first entry for the age, or none. */
  function FindAgeDefinition(defs: seq<AgeDefinition>, age: int): (r: Option<AgeDefinition>)
    ensures r.Some? ==> r.value.age == age
  {
    var keys := Ages(defs);
    match FirstIndex(keys, age)
    case None => None
    case Some(k) => Some(defs[k])
  }

  /** FindAgeDefinition finds nothing exactly when no entry has the age, and otherwise the first
      entry that has it. */
  lemma FindAgeDefinitionSound(defs: seq<AgeDefinition>, age: int)
    ensures FindAgeDefinition(defs, age).None? <==> forall k :: 0 <= k < |defs| ==> defs[k].age != age
    ensures FindAgeDefinition(defs, age).Some? ==>
      exists k :: 0 <= k < |defs| && defs[k] == FindAgeDefinition(defs, age).value && forall j :: 0 <= j < k ==> defs[j].age != age
  {
    var keys := Ages(defs);
    match FirstIndex(keys, age)
    case None =>
      assert forall k :: 0 <= k < |defs| ==> defs[k].age == keys[k];
    case Some(k) =>
      assert forall j :: 0 <= j < k ==> defs[j].age == keys[..k][j];
  }

  /** The number of grade buckets BuildLookups creates. */
  const GradeCount: nat := 4

  /** The bucket BuildLookups fills for a grade: the talents of that grade, in catalogue
      order.  A talent whose grade is outside 0..3 is in no bucket. */
  function GradeBucket(defs: seq<TalentDefinition>, grade: int): (r: seq<TalentDefinition>)
    ensures |r| <= |defs|
    ensures forall k :: 0 <= k < |r| ==> r[k].grade == grade
    decreases |defs|
  {
    if |defs| == 0 then []
    else
      var last := defs[|defs| - 1];
      GradeBucket(defs[..|defs| - 1], grade) + (if last.grade == grade then [last] else [])
  }

  /** A talent is in the bucket of a grade exactly when it is in the catalogue with that grade. */
  lemma {:induction false} BucketMembers(defs: seq<TalentDefinition>, grade: int, t: TalentDefinition)
    ensures t in GradeBucket(defs, grade) <==> t in defs && t.grade == grade
    decreases |defs|
  {
    if |defs| > 0 {
      var front := defs[..|defs| - 1];
      BucketMembers(front, grade, t);
      assert defs == front + [defs[|defs| - 1]];
    }
  }

  /** How many talents of the catalogue have the grade (the counting pass of BuildLookups). */
  function GradeCountOf(defs: seq<TalentDefinition>, grade: int): (n: nat)
    ensures n == |GradeBucket(defs, grade)|
    decreases |defs|
  {
    if |defs| == 0 then 0
    else GradeCountOf(defs[..|defs| - 1], grade) + (if defs[|defs| - 1].grade == grade then 1 else 0)
  }

  /** One more talent of the catalogue, as GradeCountOf and GradeBucket unfold it. */
  lemma GradeStep(defs: seq<TalentDefinition>, i: nat, grade: int)
    requires i < |defs|
    ensures GradeCountOf(defs[..i + 1], grade) ==
      GradeCountOf(defs[..i], grade) + (if defs[i].grade == grade then 1 else 0)
    ensures GradeBucket(defs[..i + 1], grade) ==
      GradeBucket(defs[..i], grade) + (if defs[i].grade == grade then [defs[i]] else [])
  {
    assert defs[..i + 1][..i] == defs[..i];
  }

  /** A prefix of the catalogue has no more talents of a grade than the whole. */
  lemma {:induction false} CountPrefixBound(defs: seq<TalentDefinition>, i: nat, grade: int)
    requires i <= |defs|
    ensures GradeCountOf(defs[..i], grade) <= GradeCountOf(defs, grade)
    decreases |defs|
  {
    if i < |defs| {
      var front := defs[..|defs| - 1];
      CountPrefixBound(front, i, grade);
      assert front[..i] == defs[..i];
    } else {
      assert defs[..i] == defs;
    }
  }

  /** The buckets partition the talents whose grade is in 0..3. */
  lemma {:induction false} BucketsPartition(defs: seq<TalentDefinition>)
    ensures |GradeBucket(defs, 0)| + |GradeBucket(defs, 1)| + |GradeBucket(defs, 2)| + |GradeBucket(defs, 3)|
      + Outside(defs) == |defs|
    decreases |defs|
  {
    if |defs| > 0 {
      BucketsPartition(defs[..|defs| - 1]);
    }
  }

  /** The number of talents whose grade is outside 0..3. */
  function Outside(defs: seq<TalentDefinition>): nat
    decreases |defs|
  {
    if |defs| == 0 then 0
    else Outside(defs[..|defs| - 1]) + (if 0 <= defs[|defs| - 1].grade < GradeCount then 0 else 1)
  }
}
