/**
 * The settings tables of the Room database: the single-row `budgets`
 * table, `expense_categories` keyed by name and `savings_goals` keyed by
 * id. Each table is a map from primary key to row; `@Upsert` with a list
 * writes the rows one after the other, so a later row with the same key
 * replaces an earlier one.
 */
module SettingsTables {
  import opened Wrappers
  import opened Ordering
  import opened SavingsGoals

  datatype BudgetEntity = BudgetEntity(id: int, amount: Option<int>, updatedAt: int)

  datatype ExpenseCategoryEntity = ExpenseCategoryEntity(name: string, position: int, updatedAt: int, deleted: bool)

  /** The budget row's primary key default. */
  const BUDGET_ID: int := 0

  function CategoryKey(c: ExpenseCategoryEntity): string { c.name }
  function GoalKey(g: SavingsGoal): string { g.id }
  function PositionKey(c: ExpenseCategoryEntity): seq<int> { [c.position] }

  /** The keys a list of rows carries. */
  function KeysOf<V>(vs: seq<V>, key: V -> string): set<string> {
    set i | 0 <= i < |vs| :: key(vs[i])
  }

  /** The last row of `vs` with key `k`: the one an upsert of the whole list leaves behind. */
  function LastKeyed<V>(vs: seq<V>, k: string, key: V -> string): (r: Option<V>)
    ensures r.None? <==> k !in KeysOf(vs, key)
    ensures r.Some? ==> key(r.value) == k && r.value in vs
  {
    if vs == [] then None
    else if key(vs[|vs| - 1]) == k then Some(vs[|vs| - 1])
    else
      var r := LastKeyed(vs[..|vs| - 1], k, key);
      assert KeysOf(vs, key) == KeysOf(vs[..|vs| - 1], key) + {key(vs[|vs| - 1])};
      r
  }

  /** The table after upserting `vs` one row at a time. */
  function UpsertAll<V>(m: map<string, V>, vs: seq<V>, key: V -> string): map<string, V> {
    if vs == [] then m
    else UpsertAll(m, vs[..|vs| - 1], key)[key(vs[|vs| - 1]) := vs[|vs| - 1]]
  }

  /** After an upsert of a list, a key carries its last row in the list, or its old row if the list lacks it. */
  lemma {:induction false} UpsertAllLookup<V>(m: map<string, V>, vs: seq<V>, key: V -> string, k: string)
    ensures k in UpsertAll(m, vs, key) <==> k in m || k in KeysOf(vs, key)
    ensures k in KeysOf(vs, key) ==> UpsertAll(m, vs, key)[k] == LastKeyed(vs, k, key).value
    ensures k !in KeysOf(vs, key) && k in m ==> UpsertAll(m, vs, key)[k] == m[k]
  {
    if vs != [] {
      var init := vs[..|vs| - 1];
      assert KeysOf(vs, key) == KeysOf(init, key) + {key(vs[|vs| - 1])};
      UpsertAllLookup(m, init, key, k);
    }
  }

  /** Every row is stored under its own key. */
  ghost predicate KeyedBy<V>(m: map<string, V>, key: V -> string) {
    forall k :: k in m ==> key(m[k]) == k
  }

  class SettingsDao {
    var budgets: map<int, BudgetEntity>
    var categories: map<string, ExpenseCategoryEntity>
    var goals: map<string, SavingsGoal>

    ghost predicate Valid()
      reads this
    {
      (forall id :: id in budgets ==> budgets[id].id == id) &&
      KeyedBy(categories, CategoryKey) && KeyedBy(goals, GoalKey)
    }

    constructor ()
      ensures Valid()
      ensures budgets == map[] && categories == map[] && goals == map[]
    {
      budgets := map[];
      categories := map[];
      goals := map[];
    }

    /** `upsertBudget`: the app always writes the default key, so the table never holds more than that row. */
    method UpsertBudget(budget: BudgetEntity)
      requires Valid()
      modifies this
      ensures Valid()
      ensures budgets == old(budgets)[budget.id := budget]
      ensures unchanged(this`categories, this`goals)
      ensures budget.id == BUDGET_ID && old(budgets).Keys <= {BUDGET_ID} ==> budgets.Keys == {BUDGET_ID}
    {
      budgets := budgets[budget.id := budget];
    }

    /** `clearBudget`. */
    method ClearBudget()
      requires Valid()
      modifies this
      ensures Valid()
      ensures budgets == map[]
      ensures unchanged(this`categories, this`goals)
    {
      budgets := map[];
    }

    /** `@Upsert` of a list of categories, row by row. */
    method UpsertExpenseCategories(cs: seq<ExpenseCategoryEntity>)
      requires Valid()
      modifies this
      ensures Valid()
      ensures categories == UpsertAll(old(categories), cs, CategoryKey)
      ensures unchanged(this`budgets, this`goals)
    {
      for i := 0 to |cs|
        invariant categories == UpsertAll(old(categories), cs[..i], CategoryKey)
        invariant KeyedBy(categories, CategoryKey)
        invariant unchanged(this`budgets, this`goals)
      {
        assert cs[..i + 1][..i] == cs[..i];
        categories := categories[cs[i].name := cs[i]];
      }
      assert cs[..|cs|] == cs;
    }

    /** `deleteMissingExpenseCategories`: keeps only the named rows. */
    method DeleteMissingExpenseCategories(names: seq<string>)
      requires Valid()
      modifies this
      ensures Valid()
      ensures categories == map k | k in old(categories) && k in names :: old(categories)[k]
      ensures unchanged(this`budgets, this`goals)
    {
      categories := map k | k in categories && k in names :: categories[k];
    }

    /** `replaceExpenseCategories`: afterwards the table holds exactly the given names, each with its (last) row. */
    method ReplaceExpenseCategories(cs: seq<ExpenseCategoryEntity>)
      requires Valid()
      modifies this
      ensures Valid()
      ensures categories.Keys == KeysOf(cs, CategoryKey)
      ensures forall k :: k in categories ==> categories[k] == LastKeyed(cs, k, CategoryKey).value
      ensures unchanged(this`budgets, this`goals)
    {
      if cs == [] {
        categories := map[];
      } else {
        var names := seq(|cs|, i requires 0 <= i < |cs| => cs[i].name);
        DeleteMissingExpenseCategories(names);
        ghost var kept := categories;
        UpsertExpenseCategories(cs);
        forall k
          ensures k in categories <==> k in KeysOf(cs, CategoryKey)
          ensures k in categories ==> categories[k] == LastKeyed(cs, k, CategoryKey).value
        {
          UpsertAllLookup(kept, cs, CategoryKey, k);
          if k in kept {
            assert k in names;
            var i :| 0 <= i < |names| && names[i] == k;
            assert CategoryKey(cs[i]) == k;
          }
        }
      }
    }

    /** `observeExpenseCategories`: the live categories, by position. */
    method ObserveExpenseCategories() returns (r: seq<ExpenseCategoryEntity>)
      requires Valid()
      ensures forall c :: c in r <==> c in categories.Values && !c.deleted
      ensures |r| == |set k | k in categories && !categories[k].deleted|
      ensures SortedBy(r, PositionKey)
    {
      var live := LiveCategories();
      SortByMembers(live, PositionKey);
      r := SortBy(live, PositionKey);
    }

    /** The `WHERE deleted = 0` part of `observeExpenseCategories`, one row per live name. */
    method LiveCategories() returns (live: seq<ExpenseCategoryEntity>)
      requires Valid()
      ensures forall c :: c in live <==> c in categories.Values && !c.deleted
      ensures |live| == |set k | k in categories && !categories[k].deleted|
    {
      live := [];
      var todo := categories.Keys;
      ghost var picked: set<string> := {};
      while todo != {}
        invariant todo <= categories.Keys
        invariant forall k :: k in picked <==> k in categories && k !in todo && !categories[k].deleted
        invariant |live| == |picked|
        invariant forall c :: c in live ==> c in categories.Values && !c.deleted && c.name in picked
        invariant forall k :: k in picked ==> categories[k] in live
        decreases |todo|
      {
        var k :| k in todo;
        if !categories[k].deleted {
          live := live + [categories[k]];
          picked := picked + {k};
        }
        todo := todo - {k};
      }
      forall c | c in categories.Values && !c.deleted
        ensures c in live
      {
        var k :| k in categories && categories[k] == c;
        assert k in picked;
      }
      assert picked == set k | k in categories && !categories[k].deleted;
    }

    /** `clearExpenseCategories`. */
    method ClearExpenseCategories()
      requires Valid()
      modifies this
      ensures Valid()
      ensures categories == map[]
      ensures unchanged(this`budgets, this`goals)
    {
      categories := map[];
    }

    /** `@Upsert` of a list of goals, row by row. */
    method UpsertSavingsGoals(gs: seq<SavingsGoal>)
      requires Valid()
      modifies this
      ensures Valid()
      ensures goals == UpsertAll(old(goals), gs, GoalKey)
      ensures unchanged(this`budgets, this`categories)
    {
      for i := 0 to |gs|
        invariant goals == UpsertAll(old(goals), gs[..i], GoalKey)
        invariant KeyedBy(goals, GoalKey)
        invariant unchanged(this`budgets, this`categories)
      {
        assert gs[..i + 1][..i] == gs[..i];
        goals := goals[gs[i].id := gs[i]];
      }
      assert gs[..|gs|] == gs;
    }

    /** `deleteMissingSavingsGoals`: keeps only the listed ids. */
    method DeleteMissingSavingsGoals(ids: seq<string>)
      requires Valid()
      modifies this
      ensures Valid()
      ensures goals == map k | k in old(goals) && k in ids :: old(goals)[k]
      ensures unchanged(this`budgets, this`categories)
    {
      goals := map k | k in goals && k in ids :: goals[k];
    }

    /** `deleteSavingsGoal`: removes that row only. */
    method DeleteSavingsGoal(id: string)
      requires Valid()
      modifies this
      ensures Valid()
      ensures goals == old(goals) - {id}
      ensures unchanged(this`budgets, this`categories)
    {
      goals := goals - {id};
    }

    /** `clearSavingsGoals`. */
    method ClearSavingsGoals()
      requires Valid()
      modifies this
      ensures Valid()
      ensures goals == map[]
      ensures unchanged(this`budgets, this`categories)
    {
      goals := map[];
    }

    /** `replaceSavingsGoals`: afterwards the table holds exactly the given ids, each with its (last) row. */
    method ReplaceSavingsGoals(gs: seq<SavingsGoal>)
      requires Valid()
      modifies this
      ensures Valid()
      ensures goals.Keys == KeysOf(gs, GoalKey)
      ensures forall k :: k in goals ==> goals[k] == LastKeyed(gs, k, GoalKey).value
      ensures unchanged(this`budgets, this`categories)
    {
      if gs == [] {
        ClearSavingsGoals();
      } else {
        var ids := seq(|gs|, i requires 0 <= i < |gs| => gs[i].id);
        DeleteMissingSavingsGoals(ids);
        ghost var kept := goals;
        UpsertSavingsGoals(gs);
        forall k
          ensures k in goals <==> k in KeysOf(gs, GoalKey)
          ensures k in goals ==> goals[k] == LastKeyed(gs, k, GoalKey).value
        {
          UpsertAllLookup(kept, gs, GoalKey, k);
          if k in kept {
            assert k in ids;
            var i :| 0 <= i < |ids| && ids[i] == k;
            assert GoalKey(gs[i]) == k;
          }
        }
      }
    }
  }
}
