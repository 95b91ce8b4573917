/**
 * The two bounded ledgers of a life: the ids of the active (and triggered) talents and the
 * ids of the events that have fired.  Each is a fixed array plus a count; inserting a
 * present id does nothing and an insertion into a full ledger is silently dropped.
 */
module Ledgers {

  const MaxTalents: nat := 32
  const MaxEvents: nat := 256

  predicate Distinct(ids: seq<int>)
  {
    forall i, j :: 0 <= i < j < |ids| ==> ids[i] != ids[j]
  }

  /** The contents of a ledger of the given capacity after inserting `id`. */
  function Inserted(ids: seq<int>, capacity: nat, id: int): (r: seq<int>)
    ensures id in ids ==> r == ids
    ensures id in r <==> id in ids || |ids| < capacity
    ensures |ids| <= capacity ==> |r| <= capacity
    ensures ids <= r
    ensures Distinct(ids) ==> Distinct(r)
  {
    if id in ids || |ids| >= capacity then ids else ids + [id]
  }

  /** Nothing but the inserted id enters the ledger. */
  lemma InsertedOnly(ids: seq<int>, capacity: nat, id: int, x: int)
    ensures x in Inserted(ids, capacity, id) <==> x in ids || (x == id && |ids| < capacity)
  {
  }

  /** `ContainsAny` of both ledgers: whether some id of the list is in the ledger; false on
      an empty list. */
  function ContainsAny(ledger: seq<int>, ids: seq<int>): (r: bool)
    ensures |ids| == 0 ==> !r
  {
    |ids| > 0 && AnyFrom(ledger, ids, 0)
  }

  /** The scan of ContainsAny from position `i` on, returning at the first hit. */
  function AnyFrom(ledger: seq<int>, ids: seq<int>, i: nat): (r: bool)
    requires i <= |ids|
    decreases |ids| - i
  {
    i < |ids| && (ids[i] in ledger || AnyFrom(ledger, ids, i + 1))
  }

  lemma {:induction false} AnyFromSound(ledger: seq<int>, ids: seq<int>, i: nat)
    requires i <= |ids|
    ensures AnyFrom(ledger, ids, i) <==> exists k :: i <= k < |ids| && ids[k] in ledger
    decreases |ids| - i
  {
    if i < |ids| {
      AnyFromSound(ledger, ids, i + 1);
    }
  }

  /** ContainsAny holds exactly when some id of the list is in the ledger. */
  lemma ContainsAnySound(ledger: seq<int>, ids: seq<int>)
    ensures ContainsAny(ledger, ids) <==> exists k :: 0 <= k < |ids| && ids[k] in ledger
  {
    AnyFromSound(ledger, ids, 0);
  }

  /** TalentRuntimeState: the active talents and a separate triggered-id list. */
  class TalentRuntimeState {
    const activeIds: array<int>
    var activeCount: int
    const triggeredIds: array<int>
    var triggeredCount: int

    ghost predicate Valid()
      reads this, activeIds, triggeredIds
    {
      activeIds.Length == MaxTalents && triggeredIds.Length == MaxTalents &&
      activeIds != triggeredIds &&
      0 <= activeCount <= activeIds.Length && 0 <= triggeredCount <= triggeredIds.Length
    }

    /** The active talent ids, in insertion order. */
    function Active(): seq<int>
      reads this, activeIds
      requires 0 <= activeCount <= activeIds.Length
    {
      activeIds[..activeCount]
    }

    /** The triggered ids, in insertion order. */
    function Triggered(): seq<int>
      reads this`triggeredCount, triggeredIds
      requires 0 <= triggeredCount <= triggeredIds.Length
    {
      triggeredIds[..triggeredCount]
    }

    constructor ()
      ensures Valid() && fresh(activeIds) && fresh(triggeredIds)
      ensures Active() == [] && Triggered() == []
    {
      activeIds := new int[MaxTalents];
      triggeredIds := new int[MaxTalents];
      activeCount := 0;
      triggeredCount := 0;
    }

    method Reset()
      requires Valid()
      modifies this
      ensures Valid() && Active() == [] && Triggered() == []
    {
      activeCount := 0;
      triggeredCount := 0;
    }

    /** The scan over the first activeCount slots. */
    function Contains(id: int): (r: bool)
      reads this, activeIds
      requires 0 <= activeCount <= activeIds.Length
      ensures r <==> id in Active()
    {
      exists i | 0 <= i < activeCount :: activeIds[i] == id
    }

    /** The scan over the first triggeredCount slots. */
    function IsTriggered(id: int): (r: bool)
      reads this, triggeredIds
      requires 0 <= triggeredCount <= triggeredIds.Length
      ensures r <==> id in Triggered()
    {
      exists i | 0 <= i < triggeredCount :: triggeredIds[i] == id
    }

    method MarkTriggered(id: int)
      requires Valid()
      modifies this, triggeredIds
      ensures Valid()
      ensures Triggered() == Inserted(old(Triggered()), MaxTalents, id)
      ensures Active() == old(Active())
    {
      if IsTriggered(id) {
        return;
      }
      if triggeredCount < triggeredIds.Length {
        triggeredIds[triggeredCount] := id;
        triggeredCount := triggeredCount + 1;
      }
    }

    method AddTalent(id: int)
      requires Valid()
      modifies this`activeCount, activeIds
      ensures Valid()
      ensures Active() == Inserted(old(Active()), MaxTalents, id)
      ensures Triggered() == old(Triggered())
    {
      if Contains(id) || activeCount >= activeIds.Length {
        return;
      }
      activeIds[activeCount] := id;
      activeCount := activeCount + 1;
    }
  }

  /** EventRuntimeState: the ids of the events that have fired. */
  class EventRuntimeState {
    const triggeredIds: array<int>
    var triggeredCount: int

    ghost predicate Valid()
      reads this, triggeredIds
    {
      triggeredIds.Length == MaxEvents &&
      0 <= triggeredCount <= triggeredIds.Length
    }

    function Triggered(): seq<int>
      reads this, triggeredIds
      requires 0 <= triggeredCount <= triggeredIds.Length
    {
      triggeredIds[..triggeredCount]
    }

    constructor ()
      ensures Valid() && fresh(triggeredIds) && Triggered() == []
    {
      triggeredIds := new int[MaxEvents];
      triggeredCount := 0;
    }

    method Reset()
      requires Valid()
      modifies this
      ensures Valid() && Triggered() == []
    {
      triggeredCount := 0;
    }

    function Contains(id: int): (r: bool)
      reads this, triggeredIds
      requires 0 <= triggeredCount <= triggeredIds.Length
      ensures r <==> id in Triggered()
    {
      exists i | 0 <= i < triggeredCount :: triggeredIds[i] == id
    }

    method MarkTriggered(id: int)
      requires Valid()
      modifies this, triggeredIds
      ensures Valid()
      ensures Triggered() == Inserted(old(Triggered()), MaxEvents, id)
    {
      if Contains(id) || triggeredCount >= triggeredIds.Length {
        return;
      }
      triggeredIds[triggeredCount] := id;
      triggeredCount := triggeredCount + 1;
    }
  }
}
