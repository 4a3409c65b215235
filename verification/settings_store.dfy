/**
 * The settings store: one preferences record edited in place by the
 * setters, the goal operations and the sync hooks, with the optional
 * settings tables mirrored after each edit.
 */
module SettingsStores {
  import opened Wrappers
  import opened Text
  import opened TransactionModel
  import opened LanguageConfig
  import opened SavingsGoals
  import opened GoalCodec
  import opened GoalMerge
  import opened SettingsTables
  import opened SettingsPrefs

  /** The goal text `persistSavingsGoals` writes: stale tombstones dropped, sorted by name; nothing left removes the key. */
  function GoalsText(gs: seq<SavingsGoal>): (r: Option<string>)
    ensures r.None? <==> Persisted(gs) == []
  {
    var kept := Persisted(gs);
    if kept == [] then None else Some(EncodeGoals(kept))
  }

  /** The store reads back exactly the goals it persisted, for goals the text form can carry. */
  lemma GoalsTextRoundTrip(gs: seq<SavingsGoal>)
    requires forall g :: g in gs ==> Encodable(g)
    ensures DecodeGoals(GoalsText(gs)) == Persisted(gs)
  {
    var kept := Persisted(gs);
    if kept != [] {
      assert forall i :: 0 <= i < |kept| ==> kept[i] in gs;
      DecodeEncodeGoals(kept);
    }
  }

  /** The goal text after `mergeRemoteSavingsGoals(remote)`: an empty remote list changes nothing. */
  function MergedGoalsText(text: Option<string>, remote: seq<SavingsGoal>): (r: Option<string>)
    ensures remote == [] ==> r == text
    ensures remote != [] ==> r == GoalsText(MergeSpec(RemoveStaleDeletes(DecodeGoals(text)), remote).0)
  {
    if remote == [] then text
    else GoalsText(MergeSpec(RemoveStaleDeletes(DecodeGoals(text)), remote).0)
  }

  /** What `mergeRemoteSavingsGoals(remote)` reports as applied. */
  function MergedCount(text: Option<string>, remote: seq<SavingsGoal>): (r: nat)
    ensures remote == [] ==> r == 0
  {
    if remote == [] then 0 else MergeSpec(RemoveStaleDeletes(DecodeGoals(text)), remote).1
  }

  /** The goal text after `markSavingsGoalsSynced(acks)`: an empty acknowledgement list changes nothing. */
  function AckedGoalsText(text: Option<string>, acks: seq<SavingsGoal>): (r: Option<string>)
    ensures acks == [] ==> r == text
    ensures acks != [] ==> r == GoalsText(AckGoals(DecodeGoals(text), acks))
  {
    if acks == [] then text else GoalsText(AckGoals(DecodeGoals(text), acks))
  }

  /** The category rows `persistExpenseCategories` writes: each name at its list position. */
  function CategoryRows(cs: seq<string>, updatedAt: int): (r: seq<ExpenseCategoryEntity>)
    ensures |r| == |cs|
    ensures forall i :: 0 <= i < |cs| ==> r[i] == ExpenseCategoryEntity(cs[i], i, updatedAt, false)
  {
    seq(|cs|, i requires 0 <= i < |cs| => ExpenseCategoryEntity(cs[i], i, updatedAt, false))
  }

  class SettingsStore {
    var prefs: Prefs
    const env: Env
    const dao: Option<SettingsDao>

    /** The tables the store mirrors into, when it has them. */
    function Mirror(): set<object> {
      if dao.Some? then {dao.value} else {}
    }

    ghost predicate Valid()
      reads Mirror()
    {
      dao.Some? ==> dao.value.Valid()
    }

    /** The mirror's goal table holds exactly `gs`, keyed by id. */
    ghost predicate MirrorsGoals(gs: seq<SavingsGoal>)
      reads Mirror()
    {
      dao.Some? ==>
        dao.value.goals.Keys == KeysOf(gs, GoalKey) &&
        forall k :: k in dao.value.goals ==> dao.value.goals[k] == LastKeyed(gs, k, GoalKey).value
    }

    /** The mirror's category table holds exactly the rows of `cs` written at `updatedAt`, keyed by name. */
    ghost predicate MirrorsCategories(cs: seq<string>, updatedAt: int)
      reads Mirror()
    {
      dao.Some? ==>
        dao.value.categories.Keys == KeysOf(CategoryRows(cs, updatedAt), CategoryKey) &&
        forall k :: k in dao.value.categories ==>
          dao.value.categories[k] == LastKeyed(CategoryRows(cs, updatedAt), k, CategoryKey).value
    }

    constructor (env: Env, dao: Option<SettingsDao>)
      requires dao.Some? ==> dao.value.Valid()
      ensures this.env == env && this.dao == dao && prefs == EMPTY_PREFS
      ensures Valid()
    {
      this.env := env;
      this.dao := dao;
      prefs := EMPTY_PREFS;
    }

    /** The goals as stored, decoded. */
    function Goals(): seq<SavingsGoal>
      reads this
    {
      DecodeGoals(prefs.savingsGoals)
    }

    /** `snapshot()`. */
    function Snapshot(): (s: SettingsSnapshot)
      reads this
      ensures s == SnapshotOf(prefs, env)
    {
      SnapshotOf(prefs, env)
    }

    /** `lastDeltaSyncAt`: 0 until a sync stores one. */
    function LastDeltaSyncAt(): (r: int)
      reads this
      ensures prefs.lastDeltaSyncAt.None? ==> r == 0
    {
      prefs.lastDeltaSyncAt.GetOr(0)
    }

    /** `pendingSavingsGoals()`. */
    function PendingSavingsGoals(): (r: seq<SavingsGoal>)
      reads this
      ensures forall g :: g in r <==> g in Goals() && g.pendingOp.Some? && g.id != LEGACY_GOAL_ID
    {
      PendingGoals(Goals())
    }

    /** `rawSavingsGoals(includeLegacy)`. */
    function RawSavingsGoals(includeLegacy: bool): (r: seq<SavingsGoal>)
      reads this
      ensures forall g :: g in r <==> g in Goals() && !IsStaleDelete(g) && (includeLegacy || g.id != LEGACY_GOAL_ID)
    {
      var stored := RemoveStaleDeletes(Goals());
      if includeLegacy then stored else WithoutId(stored, LEGACY_GOAL_ID)
    }

    /** `persistBudget`: the single budget row, when the tables are there. */
    method PersistBudget(amount: Option<int>, updatedAt: int)
      requires Valid()
      modifies Mirror()
      ensures Valid()
      ensures dao.Some? ==> dao.value.budgets == old(dao.value.budgets)[BUDGET_ID := BudgetEntity(BUDGET_ID, amount, updatedAt)]
      ensures dao.Some? ==> unchanged(dao.value`categories, dao.value`goals)
    {
      if dao.Some? {
        dao.value.UpsertBudget(BudgetEntity(BUDGET_ID, amount, updatedAt));
      }
    }

    /** `persistExpenseCategories`: the table then holds exactly these names, each at its position. */
    method PersistExpenseCategories(cs: seq<string>, updatedAt: int)
      requires Valid()
      modifies Mirror()
      ensures Valid()
      ensures MirrorsCategories(cs, updatedAt)
      ensures dao.Some? ==> unchanged(dao.value`budgets, dao.value`goals)
    {
      if dao.Some? {
        var rows := CategoryRows(cs, updatedAt);
        if rows == [] {
          dao.value.ClearExpenseCategories();
        } else {
          dao.value.ReplaceExpenseCategories(rows);
        }
      }
    }

    /** `persistSavingsGoals`: the table then holds exactly these goals. */
    method PersistSavingsGoals(gs: seq<SavingsGoal>)
      requires Valid()
      modifies Mirror()
      ensures Valid()
      ensures MirrorsGoals(gs)
      ensures dao.Some? ==> unchanged(dao.value`budgets, dao.value`categories)
    {
      if dao.Some? {
        if gs == [] {
          dao.value.ClearSavingsGoals();
        } else {
          dao.value.ReplaceSavingsGoals(gs);
        }
      }
    }

    /** `prefs.persistSavingsGoals(gs)` followed by `persistSavingsGoals(gs)`: the goal key and the table both take `gs`. */
    method StoreGoals(gs: seq<SavingsGoal>)
      requires Valid()
      modifies this, Mirror()
      ensures Valid()
      ensures prefs == old(prefs).(savingsGoals := GoalsText(gs))
      ensures MirrorsGoals(gs)
      ensures dao.Some? ==> unchanged(dao.value`budgets, dao.value`categories)
    {
      prefs := prefs.(savingsGoals := GoalsText(gs));
      PersistSavingsGoals(gs);
    }

    /** `applyRemoteSettings`: the remote snapshot, sanitized, replaces the settings, which end up clean. */
    method ApplyRemoteSettings(s: SettingsSnapshot)
      requires Valid()
      modifies this, Mirror()
      ensures Valid()
      ensures prefs == RemoteApplied(old(prefs), s)
      ensures MirrorsCategories(CleanCategories(s.expenseCategories), s.updatedAt)
      ensures dao.Some? ==>
                dao.value.budgets == old(dao.value.budgets)[BUDGET_ID := BudgetEntity(BUDGET_ID, NonNegativeOrNone(s.budgetMonthly), s.updatedAt)]
      ensures dao.Some? ==> unchanged(dao.value`goals)
    {
      prefs := RemoteApplied(prefs, s);
      PersistExpenseCategories(CleanCategories(s.expenseCategories), s.updatedAt);
      PersistBudget(NonNegativeOrNone(s.budgetMonthly), s.updatedAt);
    }

    /** `markSettingsSynced`: clean at the server time, whatever was edited. */
    method MarkSettingsSynced(updatedAt: int)
      modifies this
      ensures prefs == MarkedClean(old(prefs), updatedAt)
    {
      prefs := MarkedClean(prefs, updatedAt);
    }

    /** `setLanguage`: marks the settings dirty only when the language read changes. */
    method SetLanguage(code: string, now: int)
      modifies this
      ensures var current := Sanitize(Some(old(prefs).language.GetOr(env.deviceLanguage)));
              if current != Sanitize(Some(code))
              then prefs == MarkedDirty(old(prefs).(language := Some(Sanitize(Some(code)))), now)
              else prefs == old(prefs)
      ensures Snapshot().languageCode == Sanitize(Some(code))
    {
      var sanitized := Sanitize(Some(code));
      var current := Sanitize(Some(prefs.language.GetOr(env.deviceLanguage)));
      if current != sanitized {
        prefs := MarkedDirty(prefs.(language := Some(sanitized)), now);
        SanitizeIdempotent(Some(code));
      }
    }

    /** `setCurrency`: a blank code means the default; dirty only on change. */
    method SetCurrency(code: string, now: int)
      modifies this
      ensures var sanitized := if IsBlank(code) then DEFAULT_CURRENCY else code;
              if old(prefs).currency.GetOr(DEFAULT_CURRENCY) != sanitized
              then prefs == MarkedDirty(old(prefs).(currency := Some(sanitized)), now)
              else prefs == old(prefs)
      ensures Snapshot().currencyCode == if IsBlank(code) then DEFAULT_CURRENCY else code
    {
      var sanitized := if IsBlank(code) then DEFAULT_CURRENCY else code;
      if prefs.currency.GetOr(DEFAULT_CURRENCY) != sanitized {
        prefs := MarkedDirty(prefs.(currency := Some(sanitized)), now);
      }
    }

    /** `setExpenseCategories`: dirty, and mirrored, only when the stored text changes. */
    method SetExpenseCategories(categories: seq<string>, now: int)
      requires Valid()
      modifies this, Mirror()
      ensures Valid()
      ensures var text := CategoriesText(CleanCategories(categories));
              if old(prefs).expenseCategories != text
              then prefs == MarkedDirty(old(prefs).(expenseCategories := text), now)
              else prefs == old(prefs)
      ensures old(prefs).expenseCategories != CategoriesText(CleanCategories(categories)) ==>
                MirrorsCategories(CleanCategories(categories), now)
      ensures old(prefs).expenseCategories == CategoriesText(CleanCategories(categories)) && dao.Some? ==>
                unchanged(dao.value)
    {
      var sanitized := CleanCategories(categories);
      if prefs.expenseCategories != CategoriesText(sanitized) {
        WriteExpenseCategories(sanitized, now);
      }
    }

    /** The changed branch of `setExpenseCategories`: the text written, the settings dirty, the table replaced. */
    method WriteExpenseCategories(cs: seq<string>, now: int)
      requires Valid()
      modifies this, Mirror()
      ensures Valid()
      ensures prefs == MarkedDirty(old(prefs).(expenseCategories := CategoriesText(cs)), now)
      ensures MirrorsCategories(cs, now)
      ensures dao.Some? ==> unchanged(dao.value`budgets, dao.value`goals)
    {
      prefs := MarkedDirty(prefs.(expenseCategories := CategoriesText(cs)), now);
      PersistExpenseCategories(cs, now);
    }

    /** `setIncomeCategories`: dirty only when the stored text changes; income categories have no table. */
    method SetIncomeCategories(categories: seq<string>, now: int)
      modifies this
      ensures var text := CategoriesText(CleanCategories(categories));
              if old(prefs).incomeCategories != text
              then prefs == MarkedDirty(old(prefs).(incomeCategories := text), now)
              else prefs == old(prefs)
    {
      var text := CategoriesText(CleanCategories(categories));
      if prefs.incomeCategories != text {
        prefs := MarkedDirty(prefs.(incomeCategories := text), now);
      }
    }

    /** `setBudgetMonthly`: a negative or missing budget clears it; dirty, and mirrored, only on change. */
    method SetBudgetMonthly(budget: Option<int>, now: int)
      requires Valid()
      modifies this, Mirror()
      ensures Valid()
      ensures var sanitized := NonNegativeOrNone(budget);
              if old(prefs).budget != sanitized
              then prefs == MarkedDirty(old(prefs).(budget := sanitized), now)
              else prefs == old(prefs)
      ensures Snapshot().budgetMonthly == NonNegativeOrNone(budget)
      ensures old(prefs).budget != NonNegativeOrNone(budget) && dao.Some? ==>
                dao.value.budgets == old(dao.value.budgets)[BUDGET_ID := BudgetEntity(BUDGET_ID, NonNegativeOrNone(budget), now)]
      ensures old(prefs).budget == NonNegativeOrNone(budget) && dao.Some? ==> unchanged(dao.value)
    {
      var sanitized := NonNegativeOrNone(budget);
      var current := prefs.budget;
      var changed := false;
      if sanitized.None? && current.Some? {
        prefs := MarkedDirty(prefs.(budget := None), now);
        changed := true;
      } else if sanitized.Some? && current != sanitized {
        prefs := MarkedDirty(prefs.(budget := sanitized), now);
        changed := true;
      }
      if changed {
        PersistBudget(sanitized, now);
      }
    }

    /**
     * `setBudgetCycleStartDay` as the store writes it: the change is measured
     * against the stored start-day key only, and the legacy end day is dropped.
     */
    method SetBudgetCycleStartDay(day: Option<int>, now: int)
      modifies this
      ensures prefs == StartDayEditAsWritten(old(prefs), day, now)
      ensures Snapshot().budgetCycleStartDay == if day.Some? then Clamp(day.value, 1, 31) else DEFAULT_BUDGET_CYCLE_START_DAY
    {
      prefs := StartDayEditAsWritten(prefs, day, now);
    }

    /** `setLastDeltaSyncAt`: stores the checkpoint as given; nothing else changes. */
    method SetLastDeltaSyncAt(millis: int)
      modifies this
      ensures prefs == old(prefs).(lastDeltaSyncAt := Some(millis))
      ensures LastDeltaSyncAt() == millis
    {
      prefs := prefs.(lastDeltaSyncAt := Some(millis));
    }

    /** `setThemeMode`: a blank mode means the default; dirty only on change. */
    method SetThemeMode(mode: string, now: int)
      modifies this
      ensures var sanitized := if IsBlank(mode) then DEFAULT_THEME_MODE else mode;
              if old(prefs).themeMode.GetOr(DEFAULT_THEME_MODE) != sanitized
              then prefs == MarkedDirty(old(prefs).(themeMode := Some(sanitized)), now)
              else prefs == old(prefs)
      ensures Snapshot().themeMode == if IsBlank(mode) then DEFAULT_THEME_MODE else mode
    {
      var sanitized := if IsBlank(mode) then DEFAULT_THEME_MODE else mode;
      if prefs.themeMode.GetOr(DEFAULT_THEME_MODE) != sanitized {
        prefs := MarkedDirty(prefs.(themeMode := Some(sanitized)), now);
      }
    }

    /** `setAccentColor`: a blank id means the default; dirty only on change. */
    method SetAccentColor(accentId: string, now: int)
      modifies this
      ensures var sanitized := if IsBlank(accentId) then DEFAULT_ACCENT_COLOR else accentId;
              if old(prefs).accentColor.GetOr(DEFAULT_ACCENT_COLOR) != sanitized
              then prefs == MarkedDirty(old(prefs).(accentColor := Some(sanitized)), now)
              else prefs == old(prefs)
      ensures Snapshot().accentColor == if IsBlank(accentId) then DEFAULT_ACCENT_COLOR else accentId
    {
      var sanitized := if IsBlank(accentId) then DEFAULT_ACCENT_COLOR else accentId;
      if prefs.accentColor.GetOr(DEFAULT_ACCENT_COLOR) != sanitized {
        prefs := MarkedDirty(prefs.(accentColor := Some(sanitized)), now);
      }
    }

    /** `setBalanceBaseline`: stores the clamped baseline and marks the settings dirty even when nothing changed. */
    method SetBalanceBaseline(amount: int, dateMillis: int, now: int)
      modifies this
      ensures prefs == MarkedDirty(old(prefs).(baselineAmount := Some(NonNegative(amount)),
                                               baselineDate := Some(NonNegative(dateMillis))), now)
      ensures Snapshot().dirty && Snapshot().updatedAt == now
    {
      prefs := MarkedDirty(prefs.(baselineAmount := Some(NonNegative(amount)),
                                  baselineDate := Some(NonNegative(dateMillis))), now);
    }

    /** `clearBalanceBaseline`: dirty only when there was a baseline to clear. */
    method ClearBalanceBaseline(now: int)
      modifies this
      ensures var cleared := old(prefs).(baselineAmount := None, baselineDate := None);
              if old(prefs).baselineAmount.Some? || old(prefs).baselineDate.Some?
              then prefs == MarkedDirty(cleared, now)
              else prefs == cleared
    {
      var hadBaseline := prefs.baselineAmount.Some? || prefs.baselineDate.Some?;
      prefs := prefs.(baselineAmount := None, baselineDate := None);
      if hadBaseline {
        prefs := MarkedDirty(prefs, now);
      }
    }

    /**
     * `markAllDirtyForBootstrap`: the settings are dirty at `now`, the
     * stored language is made explicit, and every goal is pending again.
     */
    method MarkAllDirtyForBootstrap(now: int)
      requires Valid()
      modifies this, Mirror()
      ensures Valid()
      ensures prefs == MarkedDirty(old(prefs), now).(
                language := Some(Sanitize(Some(old(prefs).language.GetOr(env.deviceLanguage)))),
                savingsGoals := GoalsText(ReflagAll(old(Goals()), now)))
      ensures MirrorsGoals(ReflagAll(old(Goals()), now))
      ensures dao.Some? ==> unchanged(dao.value`budgets, dao.value`categories)
    {
      var language := Sanitize(Some(prefs.language.GetOr(env.deviceLanguage)));
      var refreshed := ReflagAll(Goals(), now);
      prefs := MarkedDirty(prefs, now).(language := Some(language), savingsGoals := GoalsText(refreshed));
      PersistSavingsGoals(refreshed);
    }

    /** `addSavingsGoal`: a new pending INSERT goal; the legacy single goal is dropped. */
    method AddSavingsGoal(id: string, name: string, target: int, deadlineMillis: Option<int>, now: int)
      returns (goal: SavingsGoal)
      requires Valid()
      modifies this, Mirror()
      ensures Valid()
      ensures goal == NewGoal(id, name, target, deadlineMillis, now, env.defaultGoalName)
      ensures prefs == old(prefs).(savingsGoals := GoalsText(AddGoal(old(Goals()), goal)),
                                   legacySavingsGoal := None, legacySavingsProgress := None)
      ensures MirrorsGoals(AddGoal(old(Goals()), goal))
      ensures dao.Some? ==> unchanged(dao.value`budgets, dao.value`categories)
    {
      goal := NewGoal(id, name, target, deadlineMillis, now, env.defaultGoalName);
      var updated := AddGoal(Goals(), goal);
      prefs := prefs.(savingsGoals := GoalsText(updated), legacySavingsGoal := None, legacySavingsProgress := None);
      PersistSavingsGoals(updated);
    }

    /** `updateSavingsGoal`: rewrites the goal with that id and revives it. */
    method UpdateSavingsGoal(goalId: string, name: string, target: int, deadlineMillis: Option<int>, now: int)
      requires Valid()
      modifies this, Mirror()
      ensures Valid()
      ensures var updated := UpdateGoal(old(Goals()), goalId, GoalName(name, env.defaultGoalName), target, deadlineMillis, now);
              prefs == old(prefs).(savingsGoals := GoalsText(updated),
                                   legacySavingsGoal := None, legacySavingsProgress := None)
              && MirrorsGoals(updated)
      ensures dao.Some? ==> unchanged(dao.value`budgets, dao.value`categories)
    {
      var updated := UpdateGoal(Goals(), goalId, GoalName(name, env.defaultGoalName), target, deadlineMillis, now);
      prefs := prefs.(savingsGoals := GoalsText(updated), legacySavingsGoal := None, legacySavingsProgress := None);
      PersistSavingsGoals(updated);
    }

    /** `deleteSavingsGoal`: an unsynced insert disappears, anything else becomes a pending tombstone. */
    method DeleteSavingsGoal(goalId: string, now: int)
      requires Valid()
      modifies this, Mirror()
      ensures Valid()
      ensures prefs == old(prefs).(savingsGoals := GoalsText(DeleteGoal(old(Goals()), goalId, now)))
      ensures MirrorsGoals(DeleteGoal(old(Goals()), goalId, now))
      ensures dao.Some? ==> unchanged(dao.value`budgets, dao.value`categories)
    {
      StoreGoals(DeleteGoal(Goals(), goalId, now));
    }

    /** `mergeRemoteSavingsGoals`: an empty remote list changes nothing; otherwise the three-way merge is stored. */
    method MergeRemoteSavingsGoals(remote: seq<SavingsGoal>) returns (applied: nat)
      requires Valid()
      modifies this, Mirror()
      ensures Valid()
      ensures prefs == old(prefs).(savingsGoals := MergedGoalsText(old(prefs.savingsGoals), remote))
      ensures applied == MergedCount(old(prefs.savingsGoals), remote)
      ensures remote == [] && dao.Some? ==> unchanged(dao.value)
      ensures remote != [] ==> MirrorsGoals(MergeSpec(RemoveStaleDeletes(old(Goals())), remote).0)
      ensures dao.Some? ==> unchanged(dao.value`budgets, dao.value`categories)
    {
      if remote == [] {
        return 0;
      }
      var merged;
      merged, applied := MergeSavingsGoals(RemoveStaleDeletes(Goals()), remote);
      StoreGoals(merged);
    }

    /** `markSavingsGoalsSynced`: an empty acknowledgement list changes nothing; otherwise the acks are applied. */
    method MarkSavingsGoalsSynced(acks: seq<SavingsGoal>)
      requires Valid()
      modifies this, Mirror()
      ensures Valid()
      ensures prefs == old(prefs).(savingsGoals := AckedGoalsText(old(prefs.savingsGoals), acks))
      ensures acks == [] && dao.Some? ==> unchanged(dao.value)
      ensures acks != [] ==> MirrorsGoals(AckGoals(old(Goals()), acks))
      ensures dao.Some? ==> unchanged(dao.value`budgets, dao.value`categories)
    {
      if acks == [] {
        return;
      }
      StoreGoals(AckGoals(Goals(), acks));
    }
  }
}
