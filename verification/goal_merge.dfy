/**
 * The three-way merge of the stored goal list with the server's copy
 * (`mergeSavingsGoals`): one decision per remote goal, then the local goals
 * the server did not mention, then the usual normalisation.
 */
module GoalMerge {
  import opened Wrappers
  import opened Ordering
  import opened SavingsGoals

  /** What one remote goal does to the list: the goal to keep (if any) and whether it counts as applied. */
  datatype MergeStep = MergeStep(keep: Option<SavingsGoal>, applied: nat)

  /** Does a clean local copy differ from the server's in a way the merge looks at? */
  predicate RemoteChanged(localGoal: SavingsGoal, remoteGoal: SavingsGoal) {
    remoteGoal.updatedAt > localGoal.updatedAt
    || remoteGoal.name != localGoal.name
    || remoteGoal.target != localGoal.target
    || remoteGoal.deadlineMillis != localGoal.deadlineMillis
  }

  /** The decision for one remote goal given the local goal with the same id. */
  function MergeDecision(localGoal: Option<SavingsGoal>, remoteGoal: SavingsGoal): (s: MergeStep)
    ensures s.applied <= 1
    // only the local goal or the server copy (never pending) can be kept
    ensures s.keep.Some? ==> s.keep == localGoal || s.keep == Some(remoteGoal.(pendingOp := None))
    // a deleted server copy is never adopted
    ensures remoteGoal.deleted ==> s.keep.None? || s.keep == localGoal
    // a goal only the server has is adopted unless the server deleted it
    ensures localGoal.None? ==> s.keep == if remoteGoal.deleted then None else Some(remoteGoal.(pendingOp := None))
    // a clean local goal is dropped by a server deletion, takes the server copy when it changed, and stays otherwise
    ensures localGoal.Some? && localGoal.value.pendingOp.None? ==>
              s.keep == if remoteGoal.deleted then None
                        else if RemoteChanged(localGoal.value, remoteGoal) then Some(remoteGoal.(pendingOp := None))
                        else localGoal
    // a pending local edit gives way only to a strictly newer server copy, or to its deletion
    ensures localGoal.Some? && localGoal.value.pendingOp.Some? && remoteGoal.updatedAt > localGoal.value.updatedAt ==>
              s.keep == if remoteGoal.deleted then None else Some(remoteGoal.(pendingOp := None))
    ensures localGoal.Some? && localGoal.value.pendingOp.Some? && remoteGoal.updatedAt <= localGoal.value.updatedAt ==>
              s == MergeStep(localGoal, 0)
    // `applied` counts the goals whose local state changed, except a tombstone the server also deleted
    ensures localGoal.None? || !IsStaleDelete(localGoal.value) ==>
              s.applied == if s.keep == localGoal || (localGoal.Some? && localGoal.value.deleted && remoteGoal.deleted)
                           then 0 else 1
  {
    var sanitizedRemote := remoteGoal.(pendingOp := None);
    match localGoal
    case None =>
      if !remoteGoal.deleted then MergeStep(Some(sanitizedRemote), 1) else MergeStep(None, 0)
    case Some(l) =>
      if l.pendingOp.Some? then
        if remoteGoal.updatedAt > l.updatedAt then
          if !remoteGoal.deleted then MergeStep(Some(sanitizedRemote), 1)
          else if !l.deleted then MergeStep(None, 1)
          else MergeStep(None, 0)
        else MergeStep(localGoal, 0)
      else if remoteGoal.deleted then
        MergeStep(None, if !l.deleted then 1 else 0)
      else if RemoteChanged(l, remoteGoal) then
        MergeStep(Some(sanitizedRemote), 1)
      else MergeStep(localGoal, 0)
  }

  /** What the remote pass produces: the kept goals in order, the applied count and the unmatched local goals. */
  datatype RemotePass = RemotePass(kept: seq<SavingsGoal>, applied: nat, unmatched: map<string, SavingsGoal>)

  /** The `remote.forEach` pass over `remote`, starting from the map of unmatched local goals `m`. */
  function RemoteOutcomes(m: map<string, SavingsGoal>, remote: seq<SavingsGoal>): (p: RemotePass)
    ensures p.applied <= |remote|
    ensures p.unmatched.Keys <= m.Keys
    ensures forall id :: id in p.unmatched ==> p.unmatched[id] == m[id]
  {
    if remote == [] then RemotePass([], 0, m)
    else
      var r := remote[0];
      var localGoal := if r.id in m then Some(m[r.id]) else None;
      var step := MergeDecision(localGoal, r);
      var rest := RemoteOutcomes(m - {r.id}, remote[1..]);
      RemotePass(OptionToSeq(step.keep) + rest.kept, step.applied + rest.applied, rest.unmatched)
  }

  /** An unmatched local goal is kept unless it is an acknowledged tombstone. */
  function Leftover(m: map<string, SavingsGoal>, id: string): (r: seq<SavingsGoal>)
    ensures forall g :: g in r ==> !IsStaleDelete(g)
  {
    if id in m && (!m[id].deleted || m[id].pendingOp.Some?) then [m[id]] else []
  }

  /** The `localMap.values.forEach` pass, in the map's key order. */
  function Leftovers(m: map<string, SavingsGoal>, order: seq<string>): (r: seq<SavingsGoal>)
    ensures forall g :: g in r ==> !IsStaleDelete(g)
  {
    if order == [] then [] else Leftover(m, order[0]) + Leftovers(m, order[1..])
  }

  /** The merged list and the applied count `mergeSavingsGoals(local, remote)` returns. */
  function MergeSpec(local: seq<SavingsGoal>, remote: seq<SavingsGoal>): (r: (seq<SavingsGoal>, nat))
    ensures NoStaleDeletes(r.0) && SortedBy(r.0, NameKey)
    ensures remote == [] ==> r == (Persisted(local), 0)
    ensures r.1 <= |remote|
  {
    if remote == [] then (Persisted(local), 0)
    else
      var p := RemoteOutcomes(ById(local), remote);
      (Persisted(p.kept + Leftovers(p.unmatched, KeyOrder(local))), p.applied)
  }

  lemma AppendAssoc(a: seq<SavingsGoal>, b: seq<SavingsGoal>, c: seq<SavingsGoal>)
    ensures a + (b + c) == (a + b) + c
  {
  }

  lemma RemoteOutcomesStep(m: map<string, SavingsGoal>, remote: seq<SavingsGoal>, i: nat)
    requires i < |remote|
    ensures var localGoal := if remote[i].id in m then Some(m[remote[i].id]) else None;
            var step := MergeDecision(localGoal, remote[i]);
            var tail := RemoteOutcomes(m - {remote[i].id}, remote[i + 1..]);
            RemoteOutcomes(m, remote[i..]) ==
              RemotePass(OptionToSeq(step.keep) + tail.kept, step.applied + tail.applied, tail.unmatched)
  {
    assert remote[i..][0] == remote[i] && remote[i..][1..] == remote[i + 1..];
  }

  lemma LeftoversStep(m: map<string, SavingsGoal>, order: seq<string>, j: nat, before: seq<SavingsGoal>)
    requires j < |order|
    ensures before + Leftovers(m, order[j..]) == (before + Leftover(m, order[j])) + Leftovers(m, order[j + 1..])
  {
    assert order[j..][0] == order[j] && order[j..][1..] == order[j + 1..];
    AppendAssoc(before, Leftover(m, order[j]), Leftovers(m, order[j + 1..]));
  }

  /** The `remote.forEach` pass: one decision per remote goal, consuming the matched local goals. */
  method ApplyRemoteGoals(localGoals: map<string, SavingsGoal>, remote: seq<SavingsGoal>)
    returns (result: seq<SavingsGoal>, applied: nat, unmatched: map<string, SavingsGoal>)
    ensures RemotePass(result, applied, unmatched) == RemoteOutcomes(localGoals, remote)
  {
    var localMap := localGoals;
    result := [];
    applied := 0;
    ghost var full := RemoteOutcomes(localGoals, remote);
    var i := 0;
    assert remote[i..] == remote;
    while i < |remote|
      invariant 0 <= i <= |remote|
      invariant result + RemoteOutcomes(localMap, remote[i..]).kept == full.kept
      invariant applied + RemoteOutcomes(localMap, remote[i..]).applied == full.applied
      invariant RemoteOutcomes(localMap, remote[i..]).unmatched == full.unmatched
    {
      var remoteGoal := remote[i];
      var localGoal := if remoteGoal.id in localMap then Some(localMap[remoteGoal.id]) else None;
      var step := MergeDecision(localGoal, remoteGoal);
      ghost var tail := RemoteOutcomes(localMap - {remoteGoal.id}, remote[i + 1..]);
      RemoteOutcomesStep(localMap, remote, i);
      localMap := localMap - {remoteGoal.id};
      ghost var before := result;
      if step.keep.Some? {
        result := result + [step.keep.value];
      }
      applied := applied + step.applied;
      assert result == before + OptionToSeq(step.keep);
      AppendAssoc(before, OptionToSeq(step.keep), tail.kept);
      i := i + 1;
    }
    assert remote[i..] == [];
    unmatched := localMap;
  }

  lemma MergeSpecUnfold(local: seq<SavingsGoal>, remote: seq<SavingsGoal>, p: RemotePass)
    requires remote != [] && p == RemoteOutcomes(ById(local), remote)
    ensures MergeSpec(local, remote) == (Persisted(p.kept + Leftovers(p.unmatched, KeyOrder(local))), p.applied)
  {
  }

  /** The second loop of `mergeSavingsGoals`: appends the local goals no remote goal matched, in key order. */
  method AppendLeftovers(kept: seq<SavingsGoal>, localMap: map<string, SavingsGoal>, order: seq<string>)
    returns (result: seq<SavingsGoal>)
    ensures result == kept + Leftovers(localMap, order)
  {
    result := kept;
    var j := 0;
    assert order[j..] == order;
    while j < |order|
      invariant 0 <= j <= |order|
      invariant result + Leftovers(localMap, order[j..]) == kept + Leftovers(localMap, order)
    {
      var id := order[j];
      LeftoversStep(localMap, order, j, result);
      if id in localMap && (!localMap[id].deleted || localMap[id].pendingOp.Some?) {
        result := result + [localMap[id]];
      } else {
        assert result + Leftover(localMap, id) == result;
      }
      j := j + 1;
    }
    assert order[j..] == [];
  }

  /** `mergeSavingsGoals(local, remote)`: the merged list to persist and the number of applied remote changes. */
  method MergeSavingsGoals(local: seq<SavingsGoal>, remote: seq<SavingsGoal>) returns (merged: seq<SavingsGoal>, applied: nat)
    ensures (merged, applied) == MergeSpec(local, remote)
    ensures NoStaleDeletes(merged) && SortedBy(merged, NameKey)
  {
    if remote == [] {
      return Persisted(local), 0;
    }
    var kept, localMap;
    kept, applied, localMap := ApplyRemoteGoals(ById(local), remote);
    MergeSpecUnfold(local, remote, RemotePass(kept, applied, localMap));
    var result := AppendLeftovers(kept, localMap, KeyOrder(local));
    merged := Persisted(result);
  }

  /** The first goal of `gs` with identifier `id`. */
  function FirstWithId(gs: seq<SavingsGoal>, id: string): (r: Option<SavingsGoal>)
    ensures r.Some? ==> r.value in gs && r.value.id == id
    ensures r.None? <==> !HasId(gs, id)
  {
    if gs == [] then None
    else if gs[0].id == id then Some(gs[0])
    else
      HasIdCons(gs, id);
      FirstWithId(gs[1..], id)
  }

  /** `sanitize` drops acknowledged tombstones: what `Persisted` does to a single candidate. */
  function NonStale(o: Option<SavingsGoal>): Option<SavingsGoal> {
    if o.Some? && IsStaleDelete(o.value) then None else o
  }

  predicate KeyedById(m: map<string, SavingsGoal>) {
    forall k :: k in m ==> m[k].id == k
  }

  lemma DistinctTail(gs: seq<SavingsGoal>)
    requires gs != [] && DistinctIds(gs)
    ensures DistinctIds(gs[1..]) && !HasId(gs[1..], gs[0].id)
  {
    var tail := gs[1..];
    forall i, j | 0 <= i < j < |tail| ensures tail[i].id != tail[j].id {
      assert tail[i] == gs[i + 1] && tail[j] == gs[j + 1];
    }
    forall i | 0 <= i < |tail| ensures tail[i].id != gs[0].id {
      assert tail[i] == gs[i + 1];
    }
  }

  lemma HasIdCons(gs: seq<SavingsGoal>, id: string)
    requires gs != []
    ensures HasId(gs, id) <==> gs[0].id == id || HasId(gs[1..], id)
  {
    if HasId(gs, id) && gs[0].id != id {
      var i :| 0 <= i < |gs| && gs[i].id == id;
      assert gs[1..][i - 1].id == id;
    }
    if HasId(gs[1..], id) {
      var i :| 0 <= i < |gs[1..]| && gs[1..][i].id == id;
      assert gs[i + 1].id == id;
    }
  }

  lemma KeptIds(m: map<string, SavingsGoal>, r: SavingsGoal)
    requires KeyedById(m)
    ensures var step := MergeDecision(if r.id in m then Some(m[r.id]) else None, r);
            forall g :: g in OptionToSeq(step.keep) ==> g.id == r.id
  {
  }

  lemma {:induction false} RemoteOutcomesUnmatched(m: map<string, SavingsGoal>, remote: seq<SavingsGoal>, id: string)
    ensures id in RemoteOutcomes(m, remote).unmatched <==> id in m && !HasId(remote, id)
    decreases |remote|
  {
    if remote != [] {
      HasIdCons(remote, id);
      RemoteOutcomesUnmatched(m - {remote[0].id}, remote[1..], id);
    }
  }

  lemma {:induction false} RemoteOutcomesKept(m: map<string, SavingsGoal>, remote: seq<SavingsGoal>, id: string)
    requires KeyedById(m) && DistinctIds(remote)
    ensures WithId(RemoteOutcomes(m, remote).kept, id) ==
              match FirstWithId(remote, id)
              case Some(r) => OptionToSet(MergeDecision(if id in m then Some(m[id]) else None, r).keep)
              case None => {}
    decreases |remote|
  {
    if remote != [] {
      var r := remote[0];
      var tail := remote[1..];
      var keep := MergeDecision(if r.id in m then Some(m[r.id]) else None, r).keep;
      var rest := RemoteOutcomes(m - {r.id}, tail);
      assert RemoteOutcomes(m, remote).kept == OptionToSeq(keep) + rest.kept;
      DistinctTail(remote);
      KeptIds(m, r);
      RemoteOutcomesKept(m - {r.id}, tail, id);
      WithIdAppend(OptionToSeq(keep), rest.kept, id);
      if r.id == id {
        assert WithId(OptionToSeq(keep), id) == OptionToSet(keep);
      } else {
        assert WithId(OptionToSeq(keep), id) == {};
      }
    }
  }

  lemma {:induction false} LeftoversById(m: map<string, SavingsGoal>, order: seq<string>, id: string)
    requires KeyedById(m)
    ensures WithId(Leftovers(m, order), id) ==
              if id in m && id in order && !IsStaleDelete(m[id]) then {m[id]} else {}
  {
    if order != [] {
      LeftoversById(m, order[1..], id);
      assert id in order <==> id == order[0] || id in order[1..];
    }
  }

  lemma PersistedById(gs: seq<SavingsGoal>, id: string)
    ensures WithId(Persisted(gs), id) == set g | g in WithId(gs, id) && !IsStaleDelete(g)
  {
  }

  lemma DistinctSingle(gs: seq<SavingsGoal>, id: string)
    requires DistinctIds(gs)
    ensures WithId(gs, id) == OptionToSet(LastWithId(gs, id))
  {
    forall g | g in WithId(gs, id) ensures LastWithId(gs, id) == Some(g) {
      var h := LastWithId(gs, id).value;
      var i :| 0 <= i < |gs| && gs[i] == g;
      var j :| 0 <= j < |gs| && gs[j] == h;
      assert i == j;
    }
  }

  lemma WithIdAppend(a: seq<SavingsGoal>, b: seq<SavingsGoal>, id: string)
    ensures WithId(a + b, id) == WithId(a, id) + WithId(b, id)
  {
  }

  lemma NonStaleSet(o: Option<SavingsGoal>)
    ensures (set g | g in OptionToSet(o) && !IsStaleDelete(g)) == OptionToSet(NonStale(o))
  {
  }

  /** The goals with identifier `id` among the merge's candidates, before normalisation. */
  lemma CandidatesById(local: seq<SavingsGoal>, remote: seq<SavingsGoal>, id: string)
    requires remote != [] && DistinctIds(remote)
    ensures var p := RemoteOutcomes(ById(local), remote);
            WithId(p.kept + Leftovers(p.unmatched, KeyOrder(local)), id) ==
              match FirstWithId(remote, id)
              case Some(r) => OptionToSet(MergeDecision(LastWithId(local, id), r).keep)
              case None => (set g | g in OptionToSet(LastWithId(local, id)) && !IsStaleDelete(g))
  {
    var m := ById(local);
    var p := RemoteOutcomes(m, remote);
    var left := Leftovers(p.unmatched, KeyOrder(local));
    assert (if id in m then Some(m[id]) else None) == LastWithId(local, id);
    RemoteOutcomesKept(m, remote, id);
    RemoteOutcomesUnmatched(m, remote, id);
    LeftoversById(p.unmatched, KeyOrder(local), id);
    WithIdAppend(p.kept, left, id);
  }

  /**
   * What the merge does to each goal id: when the server sent a goal with
   * that id, exactly the goal `MergeDecision` keeps; otherwise the local goal
   * survives unless it is an acknowledged tombstone; in both cases an
   * acknowledged tombstone is never part of the result.
   */
  lemma MergeById(local: seq<SavingsGoal>, remote: seq<SavingsGoal>, id: string)
    requires DistinctIds(local) && DistinctIds(remote)
    ensures WithId(MergeSpec(local, remote).0, id) ==
              match FirstWithId(remote, id)
              case Some(r) => OptionToSet(NonStale(MergeDecision(LastWithId(local, id), r).keep))
              case None => OptionToSet(NonStale(LastWithId(local, id)))
  {
    if remote == [] {
      PersistedById(local, id);
      DistinctSingle(local, id);
      NonStaleSet(LastWithId(local, id));
    } else {
      var p := RemoteOutcomes(ById(local), remote);
      var candidates := p.kept + Leftovers(p.unmatched, KeyOrder(local));
      assert MergeSpec(local, remote).0 == Persisted(candidates);
      CandidatesById(local, remote, id);
      PersistedById(candidates, id);
      match FirstWithId(remote, id)
      case Some(r) =>
        NonStaleSet(MergeDecision(LastWithId(local, id), r).keep);
      case None =>
        NonStaleSet(LastWithId(local, id));
    }
  }

  /** A goal only the server has is adopted, clean, unless the server deleted it. */
  lemma MergeAdoptsRemoteOnly(local: seq<SavingsGoal>, remote: seq<SavingsGoal>, r: SavingsGoal)
    requires DistinctIds(local) && DistinctIds(remote) && r in remote && !HasId(local, r.id)
    ensures WithId(MergeSpec(local, remote).0, r.id) == if r.deleted then {} else {r.(pendingOp := None)}
  {
    MergeById(local, remote, r.id);
    var i :| 0 <= i < |remote| && remote[i] == r;
    var f := FirstWithId(remote, r.id).value;
    var j :| 0 <= j < |remote| && remote[j] == f;
    assert i == j;
  }

  /** A local goal the server did not mention survives unless it is an acknowledged tombstone. */
  lemma MergeKeepsLocalOnly(local: seq<SavingsGoal>, remote: seq<SavingsGoal>, l: SavingsGoal)
    requires DistinctIds(local) && DistinctIds(remote) && l in local && !HasId(remote, l.id)
    ensures WithId(MergeSpec(local, remote).0, l.id) == if IsStaleDelete(l) then {} else {l}
  {
    MergeById(local, remote, l.id);
    DistinctSingle(local, l.id);
  }

  /**
   * A clean local goal the server also sent: a server deletion removes it,
   * a changed server copy replaces it (clean), and otherwise it stays unless
   * it is an acknowledged tombstone.
   */
  lemma MergeCleanLocal(local: seq<SavingsGoal>, remote: seq<SavingsGoal>, l: SavingsGoal, r: SavingsGoal)
    requires DistinctIds(local) && DistinctIds(remote) && l in local && r in remote && l.id == r.id
    requires l.pendingOp.None?
    ensures WithId(MergeSpec(local, remote).0, l.id) ==
              if r.deleted then {}
              else if RemoteChanged(l, r) then {r.(pendingOp := None)}
              else if l.deleted then {}
              else {l}
  {
    MergeBothSides(local, remote, l, r);
  }

  /**
   * A pending local goal the server also sent: it is replaced by the clean
   * server copy, or removed by a server deletion, only when the server copy
   * is strictly newer; otherwise it stays as it is.
   */
  lemma MergePendingLocal(local: seq<SavingsGoal>, remote: seq<SavingsGoal>, l: SavingsGoal, r: SavingsGoal)
    requires DistinctIds(local) && DistinctIds(remote) && l in local && r in remote && l.id == r.id
    requires l.pendingOp.Some?
    ensures WithId(MergeSpec(local, remote).0, l.id) ==
              if r.updatedAt <= l.updatedAt then {l}
              else if r.deleted then {}
              else {r.(pendingOp := None)}
  {
    MergeBothSides(local, remote, l, r);
  }

  /** For an id on both sides the merge keeps what `MergeDecision` keeps for that pair. */
  lemma MergeBothSides(local: seq<SavingsGoal>, remote: seq<SavingsGoal>, l: SavingsGoal, r: SavingsGoal)
    requires DistinctIds(local) && DistinctIds(remote) && l in local && r in remote && l.id == r.id
    ensures WithId(MergeSpec(local, remote).0, l.id) == OptionToSet(NonStale(MergeDecision(Some(l), r).keep))
  {
    MergeById(local, remote, l.id);
    DistinctSingle(local, l.id);
    assert l in WithId(local, l.id);
    var i :| 0 <= i < |remote| && remote[i] == r;
    var f := FirstWithId(remote, r.id).value;
    var j :| 0 <= j < |remote| && remote[j] == f;
    assert i == j;
  }

  /** A newer server copy of a clean goal is adopted and counted. */
  lemma MergeScenarioNewerRemote()
    ensures var l := SavingsGoal("g1", "Trip", 100, None, 10, false, None);
            var r := SavingsGoal("g1", "Trip", 150, None, 20, false, None);
            MergeSpec([l], [r]) == ([r], 1)
  {
    var l := SavingsGoal("g1", "Trip", 100, None, 10, false, None);
    var r := SavingsGoal("g1", "Trip", 150, None, 20, false, None);
    assert HasId([l], "g1");
    assert ById([l]) == map["g1" := l];
    assert KeyOrder([l]) == ["g1"];
    assert RemoteOutcomes(ById([l]), [r]) == RemotePass([r], 1, map[]);
    assert SortBy([r], NameKey) == [r];
  }

  /** A pending local edit newer than the server copy is kept and not counted. */
  lemma MergeScenarioPendingWins()
    ensures var l := SavingsGoal("g2", "Car", 10, None, 50, false, Some("UPDATE"));
            var r := SavingsGoal("g2", "Car", 20, None, 30, false, None);
            MergeSpec([l], [r]) == ([l], 0)
  {
    var l := SavingsGoal("g2", "Car", 10, None, 50, false, Some("UPDATE"));
    var r := SavingsGoal("g2", "Car", 20, None, 30, false, None);
    assert HasId([l], "g2");
    assert ById([l]) == map["g2" := l];
    assert KeyOrder([l]) == ["g2"];
    assert RemoteOutcomes(ById([l]), [r]) == RemotePass([l], 0, map[]);
    assert SortBy([l], NameKey) == [l];
  }
}
