/**
 * The savings-goal list kept by the settings store: the goal record with its
 * sync envelope, the list normalisation applied on every write
 * (`removeStaleDeletes`, `sortedByName`), the per-goal edits behind
 * add/update/delete, the bootstrap re-flagging and the acknowledgement step
 * of `markSavingsGoalsSynced`.
 */
module SavingsGoals {
  import opened Wrappers
  import opened Text
  import opened Ordering
  import opened TransactionModel

  /** The id of the goal synthesised from the pre-list single-goal preference. */
  const LEGACY_GOAL_ID: string := "legacy-default-goal"

  /** A goal; `pendingOp != None` is what the source calls `dirty`. */
  datatype SavingsGoal = SavingsGoal(
    id: string,
    name: string,
    target: int,
    deadlineMillis: Option<int>,
    updatedAt: int,
    deleted: bool,
    pendingOp: Option<string>)

  /** A tombstone whose deletion has been acknowledged: it must not be kept. */
  predicate IsStaleDelete(g: SavingsGoal) {
    g.deleted && g.pendingOp.None?
  }

  predicate NoStaleDeletes(gs: seq<SavingsGoal>) {
    forall i :: 0 <= i < |gs| ==> !IsStaleDelete(gs[i])
  }

  predicate HasId(gs: seq<SavingsGoal>, id: string) {
    exists i :: 0 <= i < |gs| && gs[i].id == id
  }

  predicate DistinctIds(gs: seq<SavingsGoal>) {
    forall i, j :: 0 <= i < j < |gs| ==> gs[i].id != gs[j].id
  }

  /** The goals of `gs` with identifier `id`. */
  function WithId(gs: seq<SavingsGoal>, id: string): set<SavingsGoal> {
    set g | g in gs && g.id == id
  }

  function OptionToSeq(o: Option<SavingsGoal>): (r: seq<SavingsGoal>)
    ensures forall g :: g in r <==> o == Some(g)
  {
    if o.Some? then [o.value] else []
  }

  function OptionToSet(o: Option<SavingsGoal>): (r: set<SavingsGoal>)
    ensures forall g :: g in r <==> o == Some(g)
  {
    if o.Some? then {o.value} else {}
  }

  /** `removeStaleDeletes`. */
  function RemoveStaleDeletes(gs: seq<SavingsGoal>): (r: seq<SavingsGoal>)
    ensures NoStaleDeletes(r)
    ensures forall g :: g in r <==> g in gs && !IsStaleDelete(g)
  {
    if gs == [] then []
    else (if IsStaleDelete(gs[0]) then [] else [gs[0]]) + RemoveStaleDeletes(gs[1..])
  }

  /** `filterNot { it.id == id }`. */
  function WithoutId(gs: seq<SavingsGoal>, id: string): (r: seq<SavingsGoal>)
    ensures forall g :: g in r <==> g in gs && g.id != id
  {
    if gs == [] then []
    else (if gs[0].id == id then [] else [gs[0]]) + WithoutId(gs[1..], id)
  }

  function NameKey(g: SavingsGoal): seq<int> {
    Codes(Lower(g.name))
  }

  /** `sortedByName`: a stable sort on the lower-cased name. */
  function SortedByName(gs: seq<SavingsGoal>): (r: seq<SavingsGoal>)
    ensures SortedBy(r, NameKey)
    ensures multiset(r) == multiset(gs)
    ensures forall g :: g in r <==> g in gs
  {
    SortByMembers(gs, NameKey);
    SortBy(gs, NameKey)
  }

  /** Goals whose lower-cased names are equal keep their relative order. */
  lemma SortedByNameStable(gs: seq<SavingsGoal>, name: string)
    ensures WithKey(SortedByName(gs), NameKey, Codes(Lower(name))) == WithKey(gs, NameKey, Codes(Lower(name)))
  {
    SortByStable(gs, NameKey, Codes(Lower(name)));
  }

  /** The list `persistSavingsGoals` writes: acknowledged tombstones dropped, sorted by name. */
  function Persisted(gs: seq<SavingsGoal>): (r: seq<SavingsGoal>)
    ensures NoStaleDeletes(r) && SortedBy(r, NameKey)
    ensures forall g :: g in r <==> g in gs && !IsStaleDelete(g)
  {
    var r := SortedByName(RemoveStaleDeletes(gs));
    assert forall i :: 0 <= i < |r| ==> r[i] in r;
    r
  }

  /** `name.trim().ifEmpty { default }`. */
  function GoalName(name: string, defaultName: string): (r: string)
    ensures Trim(name) != [] ==> r == Trim(name)
    ensures Trim(name) == [] ==> r == defaultName
  {
    if Trim(name) == [] then defaultName else Trim(name)
  }

  /** `coerceAtLeast(0.0)`. */
  function NonNegative(x: int): (r: int)
    ensures r >= 0 && (x >= 0 ==> r == x) && (x < 0 ==> r == 0)
  {
    if x < 0 then 0 else x
  }

  /** The goal `addSavingsGoal` creates: a pending INSERT with a non-negative target. */
  function NewGoal(id: string, name: string, target: int, deadlineMillis: Option<int>, now: int,
                   defaultName: string): (g: SavingsGoal)
    ensures g.id == id && g.name == GoalName(name, defaultName) && g.deadlineMillis == deadlineMillis
    ensures g.pendingOp == Some(OP_INSERT) && !g.deleted && g.updatedAt == now
    ensures g.target >= 0 && (target >= 0 ==> g.target == target)
  {
    SavingsGoal(id, GoalName(name, defaultName), NonNegative(target), deadlineMillis, now, false, Some(OP_INSERT))
  }

  /** The list after `addSavingsGoal`: the legacy goal is replaced by the new goal. */
  function AddGoal(stored: seq<SavingsGoal>, goal: SavingsGoal): (r: seq<SavingsGoal>)
    ensures goal in r
    ensures forall g :: g in r && g != goal ==> g in stored && g.id != LEGACY_GOAL_ID
    ensures forall g :: g in stored && g.id != LEGACY_GOAL_ID && !IsStaleDelete(g) ==> g in r
  {
    SortedByName(WithoutId(RemoveStaleDeletes(stored), LEGACY_GOAL_ID) + [goal])
  }

  /** One goal as `updateSavingsGoal` rewrites it: revived, and pending INSERT stays INSERT, anything else becomes UPDATE. */
  function EditedGoal(g: SavingsGoal, name: string, target: int, deadlineMillis: Option<int>, now: int): (r: SavingsGoal)
    ensures r.id == g.id && r.name == name && r.deadlineMillis == deadlineMillis && r.updatedAt == now
    ensures r.target >= 0 && (target >= 0 ==> r.target == target)
    ensures !r.deleted && !IsStaleDelete(r)
    ensures r.pendingOp == Some(if g.pendingOp == Some(OP_INSERT) then OP_INSERT else OP_UPDATE)
  {
    var pending := if g.pendingOp == Some(OP_INSERT) then OP_INSERT else OP_UPDATE;
    g.(name := name, target := NonNegative(target), deadlineMillis := deadlineMillis, updatedAt := now,
       deleted := false, pendingOp := Some(pending))
  }

  function EditGoals(gs: seq<SavingsGoal>, goalId: string, name: string, target: int,
                     deadlineMillis: Option<int>, now: int): (r: seq<SavingsGoal>)
    ensures |r| == |gs|
    ensures forall i :: 0 <= i < |gs| && gs[i].id != goalId ==> r[i] == gs[i]
    ensures forall i :: 0 <= i < |gs| && gs[i].id == goalId ==> r[i] == EditedGoal(gs[i], name, target, deadlineMillis, now)
  {
    seq(|gs|, i requires 0 <= i < |gs| =>
      if gs[i].id == goalId then EditedGoal(gs[i], name, target, deadlineMillis, now) else gs[i])
  }

  /** The list after `updateSavingsGoal(goalId, …)`. */
  function UpdateGoal(stored: seq<SavingsGoal>, goalId: string, name: string, target: int,
                      deadlineMillis: Option<int>, now: int): (r: seq<SavingsGoal>)
    ensures SortedBy(r, NameKey) && NoStaleDeletes(r)
    // the other goals stay as they are, without the acknowledged tombstones
    ensures forall g :: g in r && g.id != goalId <==> g in stored && g.id != goalId && !IsStaleDelete(g)
    // every stored copy of the goal is rewritten with the new values and revived
    ensures forall g :: g in stored && g.id == goalId && !IsStaleDelete(g) ==>
              EditedGoal(g, name, target, deadlineMillis, now) in r
    ensures forall g :: g in r && g.id == goalId ==>
              && !g.deleted && g.name == name && g.deadlineMillis == deadlineMillis && g.updatedAt == now
              && g.target >= 0 && (target >= 0 ==> g.target == target) && g.pendingOp.Some?
  {
    var kept := RemoveStaleDeletes(stored);
    EditGoalsMembers(kept, goalId, name, target, deadlineMillis, now);
    SortedByName(EditGoals(kept, goalId, name, target, deadlineMillis, now))
  }

  /** The members of an edited list: the other goals as they were, the matching ones rewritten. */
  lemma EditGoalsMembers(gs: seq<SavingsGoal>, goalId: string, name: string, target: int,
                         deadlineMillis: Option<int>, now: int)
    ensures var r := EditGoals(gs, goalId, name, target, deadlineMillis, now);
            && (forall g :: g in r && g.id != goalId <==> g in gs && g.id != goalId)
            && (forall g :: g in gs && g.id == goalId ==> EditedGoal(g, name, target, deadlineMillis, now) in r)
            && (forall g :: g in r && g.id == goalId ==>
                  exists h :: h in gs && h.id == goalId && g == EditedGoal(h, name, target, deadlineMillis, now))
  {
    var r := EditGoals(gs, goalId, name, target, deadlineMillis, now);
    forall g | g in r
      ensures g.id != goalId ==> g in gs
      ensures g.id == goalId ==> exists h :: h in gs && h.id == goalId && g == EditedGoal(h, name, target, deadlineMillis, now)
    {
      var i :| 0 <= i < |r| && r[i] == g;
      assert gs[i] in gs;
    }
    forall g | g in gs
      ensures g.id != goalId ==> g in r
      ensures g.id == goalId ==> EditedGoal(g, name, target, deadlineMillis, now) in r
    {
      var i :| 0 <= i < |gs| && gs[i] == g;
      assert r[i] in r;
    }
  }

  /** The list after `deleteSavingsGoal(goalId)`: an unsynced insert vanishes, anything else becomes a pending tombstone. */
  function DeleteGoal(gs: seq<SavingsGoal>, goalId: string, now: int): (r: seq<SavingsGoal>)
    ensures forall g :: g in r && g.id != goalId <==> g in gs && g.id != goalId
    ensures forall g :: g in r && g.id == goalId ==> g.deleted && g.pendingOp == Some(OP_DELETE) && g.updatedAt == now
    ensures forall g :: g in gs && g.id == goalId && g.pendingOp != Some(OP_INSERT) ==>
              g.(deleted := true, pendingOp := Some(OP_DELETE), updatedAt := now) in r
    ensures forall g :: g in r ==> !IsStaleDelete(g) || g in gs
    // a goal the server never saw is dropped outright
    ensures (forall g :: g in gs && g.id == goalId ==> g.pendingOp == Some(OP_INSERT)) ==> !HasId(r, goalId)
  {
    if gs == [] then []
    else
      var g := gs[0];
      var head := if g.id != goalId then [g]
                  else if g.pendingOp == Some(OP_INSERT) then []
                  else [g.(deleted := true, pendingOp := Some(OP_DELETE), updatedAt := now)];
      assert gs == [g] + gs[1..];
      head + DeleteGoal(gs[1..], goalId, now)
  }

  /** One goal as `markAllDirtyForBootstrap` re-flags it. */
  function ReflaggedGoal(g: SavingsGoal, now: int): (r: SavingsGoal)
    ensures r == g.(pendingOp := r.pendingOp, updatedAt := now)
    ensures r.pendingOp == Some(BootstrapOp(g.pendingOp, g.deleted))
  {
    g.(pendingOp := Some(BootstrapOp(g.pendingOp, g.deleted)), updatedAt := now)
  }

  function ReflagAll(gs: seq<SavingsGoal>, now: int): (r: seq<SavingsGoal>)
    ensures |r| == |gs|
    ensures forall i :: 0 <= i < |gs| ==> r[i] == ReflaggedGoal(gs[i], now)
  {
    seq(|gs|, i requires 0 <= i < |gs| => ReflaggedGoal(gs[i], now))
  }

  /** After a bootstrap every goal is pending again and none is an acknowledged tombstone. */
  lemma ReflagAllPending(gs: seq<SavingsGoal>, now: int)
    ensures forall g :: g in ReflagAll(gs, now) ==> g.pendingOp.Some? && !IsStaleDelete(g)
    ensures forall g :: g in ReflagAll(gs, now) && g.deleted ==> g.pendingOp == Some(OP_DELETE) || g.pendingOp == Some(OP_INSERT)
  {
  }

  /** `pendingSavingsGoals()`: the goals still to be pushed, the legacy goal excluded. */
  function PendingGoals(stored: seq<SavingsGoal>): (r: seq<SavingsGoal>)
    ensures forall g :: g in r <==> g in stored && g.pendingOp.Some? && g.id != LEGACY_GOAL_ID
  {
    if stored == [] then []
    else
      var g := stored[0];
      (if g.pendingOp.Some? && g.id != LEGACY_GOAL_ID && !IsStaleDelete(g) then [g] else [])
        + PendingGoals(stored[1..])
  }

  /** The last goal with identifier `id` (what `associateBy` keeps). */
  function LastWithId(gs: seq<SavingsGoal>, id: string): (r: Option<SavingsGoal>)
    ensures r.Some? ==> r.value in gs && r.value.id == id
    ensures r.None? <==> !HasId(gs, id)
  {
    if gs == [] then None
    else if gs[|gs| - 1].id == id then Some(gs[|gs| - 1])
    else
      var r := LastWithId(gs[..|gs| - 1], id);
      assert HasId(gs, id) ==> HasId(gs[..|gs| - 1], id) by {
        if HasId(gs, id) {
          var i :| 0 <= i < |gs| && gs[i].id == id;
          assert gs[..|gs| - 1][i].id == id;
        }
      }
      r
  }

  /** The keys of `associateBy { it.id }` in the map's iteration order (first occurrence). */
  function KeyOrder(gs: seq<SavingsGoal>): (r: seq<string>)
    ensures forall id :: id in r <==> HasId(gs, id)
  {
    if gs == [] then []
    else
      var rest := KeyOrder(gs[..|gs| - 1]);
      var last := gs[|gs| - 1].id;
      assert forall id :: HasId(gs, id) <==> HasId(gs[..|gs| - 1], id) || id == last by {
        forall id | HasId(gs, id) ensures HasId(gs[..|gs| - 1], id) || id == last {
          var i :| 0 <= i < |gs| && gs[i].id == id;
          if i < |gs| - 1 { assert gs[..|gs| - 1][i].id == id; }
        }
        forall id | HasId(gs[..|gs| - 1], id) ensures HasId(gs, id) {
          var i :| 0 <= i < |gs| - 1 && gs[..|gs| - 1][i].id == id;
          assert gs[i].id == id;
        }
      }
      if last in rest then rest else rest + [last]
  }

  /** The map `associateBy { it.id }` builds: each id to its last goal. */
  function ById(gs: seq<SavingsGoal>): (m: map<string, SavingsGoal>)
    ensures forall id :: id in m <==> HasId(gs, id)
    ensures forall id :: id in m ==> LastWithId(gs, id) == Some(m[id]) && m[id].id == id
  {
    map id | id in KeyOrder(gs) :: LastWithId(gs, id).value
  }

  /** A goal as an acknowledgement rewrites it, or `None` when the acknowledgement reports it deleted. */
  function AckOne(g: SavingsGoal, ack: SavingsGoal): (r: Option<SavingsGoal>)
    ensures r.None? <==> ack.deleted
    ensures r.Some? ==> r.value == g.(name := ack.name, target := ack.target, updatedAt := ack.updatedAt,
                                      pendingOp := None, deleted := false)
  {
    var acked := g.(name := ack.name, target := ack.target, updatedAt := ack.updatedAt,
                    pendingOp := None, deleted := ack.deleted);
    if acked.deleted then None else Some(acked)
  }

  /** The stored goals after acknowledgement (`current.mapNotNull { … }`). */
  function AckedCurrent(current: seq<SavingsGoal>, acks: seq<SavingsGoal>): (r: seq<SavingsGoal>)
    ensures forall g :: g in current && !HasId(acks, g.id) ==> g in r
    ensures forall g :: g in current && HasId(acks, g.id) && !LastWithId(acks, g.id).value.deleted ==>
              AckOne(g, LastWithId(acks, g.id).value).value in r
    ensures forall x :: x in r ==> HasId(current, x.id)
    ensures forall x :: x in r && !HasId(acks, x.id) ==> x in current
    ensures forall x :: x in r && HasId(acks, x.id) ==>
              !LastWithId(acks, x.id).value.deleted && x.pendingOp.None? && !x.deleted
  {
    if current == [] then []
    else
      var rest := AckedCurrent(current[1..], acks);
      AckedKeepsUnacked(current, acks, rest);
      AckedRewrites(current, acks, rest);
      AckedFromCurrent(current, acks, rest);
      AckedUnackedFromCurrent(current, acks, rest);
      AckedClean(current, acks, rest);
      AckedOne(current[0], acks) + rest
  }

  // One step of `AckedCurrent` per postcondition: from the tail's property to the whole list's.

  lemma AckedKeepsUnacked(current: seq<SavingsGoal>, acks: seq<SavingsGoal>, rest: seq<SavingsGoal>)
    requires current != []
    requires forall g :: g in current[1..] && !HasId(acks, g.id) ==> g in rest
    ensures forall g :: g in current && !HasId(acks, g.id) ==> g in AckedOne(current[0], acks) + rest
  {
    assert current == [current[0]] + current[1..];
  }

  lemma AckedRewrites(current: seq<SavingsGoal>, acks: seq<SavingsGoal>, rest: seq<SavingsGoal>)
    requires current != []
    requires forall g :: g in current[1..] && HasId(acks, g.id) && !LastWithId(acks, g.id).value.deleted ==>
               AckOne(g, LastWithId(acks, g.id).value).value in rest
    ensures forall g :: g in current && HasId(acks, g.id) && !LastWithId(acks, g.id).value.deleted ==>
              AckOne(g, LastWithId(acks, g.id).value).value in AckedOne(current[0], acks) + rest
  {
    assert current == [current[0]] + current[1..];
  }

  lemma AckedFromCurrent(current: seq<SavingsGoal>, acks: seq<SavingsGoal>, rest: seq<SavingsGoal>)
    requires current != []
    requires forall x :: x in rest ==> HasId(current[1..], x.id)
    ensures forall x :: x in AckedOne(current[0], acks) + rest ==> HasId(current, x.id)
  {
    forall x | x in rest ensures HasId(current, x.id) {
      var i :| 0 <= i < |current[1..]| && current[1..][i].id == x.id;
      assert current[i + 1].id == x.id;
    }
    assert current[0].id == current[0].id;
  }

  lemma AckedUnackedFromCurrent(current: seq<SavingsGoal>, acks: seq<SavingsGoal>, rest: seq<SavingsGoal>)
    requires current != []
    requires forall x :: x in rest && !HasId(acks, x.id) ==> x in current[1..]
    ensures forall x :: x in AckedOne(current[0], acks) + rest && !HasId(acks, x.id) ==> x in current
  {
    assert current == [current[0]] + current[1..];
  }

  lemma AckedClean(current: seq<SavingsGoal>, acks: seq<SavingsGoal>, rest: seq<SavingsGoal>)
    requires current != []
    requires forall x :: x in rest && HasId(acks, x.id) ==>
               !LastWithId(acks, x.id).value.deleted && x.pendingOp.None? && !x.deleted
    ensures forall x :: x in AckedOne(current[0], acks) + rest && HasId(acks, x.id) ==>
              !LastWithId(acks, x.id).value.deleted && x.pendingOp.None? && !x.deleted
  {
  }

  /** One stored goal after acknowledgement: kept when no ack names it, rewritten or dropped otherwise. */
  function AckedOne(g: SavingsGoal, acks: seq<SavingsGoal>): (r: seq<SavingsGoal>)
    ensures !HasId(acks, g.id) ==> r == [g]
    ensures HasId(acks, g.id) && !LastWithId(acks, g.id).value.deleted ==>
              r == [AckOne(g, LastWithId(acks, g.id).value).value]
    ensures HasId(acks, g.id) && LastWithId(acks, g.id).value.deleted ==> r == []
  {
    match LastWithId(acks, g.id)
    case None => [g]
    case Some(a) => OptionToSeq(AckOne(g, a))
  }

  /** The acknowledgements for ids the store does not hold, appended unless they report a deletion. */
  function Extras(ids: seq<string>, acks: seq<SavingsGoal>, current: seq<SavingsGoal>): (r: seq<SavingsGoal>)
    requires forall id :: id in ids ==> HasId(acks, id)
    ensures forall x :: x in r ==> !HasId(current, x.id) && !x.deleted && LastWithId(acks, x.id) == Some(x)
    ensures forall id :: id in ids && !HasId(current, id) && !LastWithId(acks, id).value.deleted ==>
              LastWithId(acks, id).value in r
  {
    if ids == [] then []
    else
      var a := LastWithId(acks, ids[0]).value;
      (if !HasId(current, ids[0]) && !a.deleted then [a] else []) + Extras(ids[1..], acks, current)
  }

  /** The list `markSavingsGoalsSynced(acks)` hands to `persistSavingsGoals`. */
  function AckGoals(current: seq<SavingsGoal>, acks: seq<SavingsGoal>): (r: seq<SavingsGoal>)
    ensures SortedBy(r, NameKey)
    ensures forall x :: x in r <==> x in AckedCurrent(current, acks) || x in Extras(KeyOrder(acks), acks, current)
  {
    SortedByName(AckedCurrent(current, acks) + Extras(KeyOrder(acks), acks, current))
  }

  /** An acknowledgement leaves the goals it does not mention unchanged. */
  lemma AckKeepsUnacknowledged(current: seq<SavingsGoal>, acks: seq<SavingsGoal>, g: SavingsGoal)
    requires g in current && !HasId(acks, g.id)
    ensures g in AckGoals(current, acks)
  {
  }

  /** An acknowledged goal takes the server's name, target and timestamp and is no longer pending. */
  lemma AckAdoptsServerCopy(current: seq<SavingsGoal>, acks: seq<SavingsGoal>, g: SavingsGoal, a: SavingsGoal)
    requires g in current && LastWithId(acks, g.id) == Some(a) && !a.deleted
    ensures g.(name := a.name, target := a.target, updatedAt := a.updatedAt, pendingOp := None, deleted := false)
              in AckGoals(current, acks)
  {
  }

  /** A goal the server reports deleted disappears from the list. */
  lemma AckDropsDeleted(current: seq<SavingsGoal>, acks: seq<SavingsGoal>, id: string)
    requires HasId(current, id) && HasId(acks, id) && LastWithId(acks, id).value.deleted
    ensures WithId(AckGoals(current, acks), id) == {}
  {
    forall x | x in AckGoals(current, acks) ensures x.id != id {
    }
  }

  /** A live acknowledgement for an id the store does not hold is adopted. */
  lemma AckAddsUnknown(current: seq<SavingsGoal>, acks: seq<SavingsGoal>, id: string)
    requires HasId(acks, id) && !HasId(current, id) && !LastWithId(acks, id).value.deleted
    ensures LastWithId(acks, id).value in AckGoals(current, acks)
  {
  }

  /** Every stored goal an acknowledgement mentions ends up clean and live. */
  lemma AckLeavesNothingPending(current: seq<SavingsGoal>, acks: seq<SavingsGoal>, x: SavingsGoal)
    requires x in AckGoals(current, acks) && HasId(current, x.id) && HasId(acks, x.id)
    ensures x.pendingOp.None? && !x.deleted
  {
  }
}
