/**
 * The settings preferences as values: the key/value record the settings
 * store edits, the snapshot read from it, the category-list text form, and
 * the pure edits the store applies (marking dirty or clean, applying a
 * remote snapshot, the budget-cycle start day).
 */
module SettingsPrefs {
  import opened Wrappers
  import opened Text
  import opened LanguageConfig

  const DEFAULT_CURRENCY: string := "EUR"
  const DEFAULT_THEME_MODE: string := "dark"
  const DEFAULT_ACCENT_COLOR: string := "teal"
  const DEFAULT_BUDGET_CYCLE_START_DAY: int := 1
  const CATEGORY_DELIMITER: char := ','
  const LEGACY_EXPENSE_CATEGORIES: seq<string> := ["Eluase", "Transport", "Toit", "Meelelahutus", "Muu"]
  const LEGACY_INCOME_CATEGORIES: seq<string> := ["Palk", "Bonus", "Muu"]

  /**
   * The preference keys the store reads and writes; `None` is an absent key.
   * Category lists are stored as comma-joined text, the goal list as the
   * goal codec's text.
   */
  datatype Prefs = Prefs(
    language: Option<string>,
    currency: Option<string>,
    expenseCategories: Option<string>,
    incomeCategories: Option<string>,
    budget: Option<int>,
    cycleStartDay: Option<int>,
    legacyCycleEndDay: Option<int>,
    lastDeltaSyncAt: Option<int>,
    themeMode: Option<string>,
    accentColor: Option<string>,
    savingsGoals: Option<string>,
    legacySavingsGoal: Option<int>,
    legacySavingsProgress: Option<int>,
    baselineAmount: Option<int>,
    baselineDate: Option<int>,
    settingsUpdatedAt: Option<int>,
    settingsDirty: Option<bool>)

  const EMPTY_PREFS: Prefs := Prefs(None, None, None, None, None, None, None, None, None, None, None,
                                    None, None, None, None, None, None)

  /** What the store falls back to from the device: its language and the localized default category lists. */
  datatype Env = Env(deviceLanguage: string, defaultExpense: seq<string>, defaultIncome: seq<string>,
                     defaultGoalName: string)

  /** The settings as the sync layer sees them. */
  datatype SettingsSnapshot = SettingsSnapshot(
    languageCode: string,
    currencyCode: string,
    expenseCategories: seq<string>,
    incomeCategories: seq<string>,
    budgetMonthly: Option<int>,
    budgetCycleStartDay: int,
    themeMode: string,
    accentColor: string,
    balanceBaselineAmount: Option<int>,
    balanceBaselineDateMillis: Option<int>,
    updatedAt: int,
    dirty: bool)

  /** `markSettingsDirty(now)`. */
  function MarkedDirty(p: Prefs, now: int): (r: Prefs)
    ensures r.settingsDirty == Some(true) && r.settingsUpdatedAt == Some(now)
    ensures r.(settingsDirty := p.settingsDirty, settingsUpdatedAt := p.settingsUpdatedAt) == p
  {
    p.(settingsUpdatedAt := Some(now), settingsDirty := Some(true))
  }

  /** `markSettingsClean(updatedAt)`. */
  function MarkedClean(p: Prefs, updatedAt: int): (r: Prefs)
    ensures r.settingsDirty == Some(false) && r.settingsUpdatedAt == Some(updatedAt)
    ensures r.(settingsDirty := p.settingsDirty, settingsUpdatedAt := p.settingsUpdatedAt) == p
  {
    p.(settingsUpdatedAt := Some(updatedAt), settingsDirty := Some(false))
  }

  /** `coerceIn(lo, hi)`. */
  function Clamp(x: int, lo: int, hi: int): (r: int)
    requires lo <= hi
    ensures lo <= r <= hi
    ensures lo <= x <= hi ==> r == x
    ensures x < lo ==> r == lo
    ensures x > hi ==> r == hi
  {
    if x < lo then lo else if x > hi then hi else x
  }

  /** `convertEndDayToStart`: the day after a legacy cycle end day; out-of-range days and 31 wrap to 1. */
  function ConvertEndDayToStart(endDay: int): (r: int)
    ensures 1 <= r <= 31
    ensures 1 <= endDay <= 30 ==> r == endDay + 1
    ensures endDay <= 0 || endDay >= 31 ==> r == 1
  {
    if endDay <= 0 then 1
    else if endDay >= 31 then 1
    else if endDay + 1 > 31 then 31 else endDay + 1
  }

  /** The start day the store reports: the stored day, else the converted legacy end day, else the default. */
  function EffectiveStartDay(p: Prefs): int {
    if p.cycleStartDay.Some? then p.cycleStartDay.value
    else if p.legacyCycleEndDay.Some? then ConvertEndDayToStart(p.legacyCycleEndDay.value)
    else DEFAULT_BUDGET_CYCLE_START_DAY
  }

  /** A category as every writer leaves it: non-empty and already trimmed. */
  predicate CleanCategory(c: string) {
    c != [] && Trim(c) == c
  }

  /** `map { it.trim() }`. */
  function Trims(cs: seq<string>): (r: seq<string>)
    ensures |r| == |cs| && forall i :: 0 <= i < |cs| ==> r[i] == Trim(cs[i])
  {
    if cs == [] then [] else [Trim(cs[0])] + Trims(cs[1..])
  }

  /** `map { it.trim() }.filter { it.isNotEmpty() }`. */
  function TrimmedNonEmpty(cs: seq<string>): (r: seq<string>)
    ensures forall c :: c in r <==> c in Trims(cs) && c != []
    ensures forall c :: c in r ==> CleanCategory(c)
  {
    if cs == [] then []
    else
      var t := Trim(cs[0]);
      var rest := TrimmedNonEmpty(cs[1..]);
      TrimIdempotent(cs[0]);
      (if t != [] then [t] else []) + rest
  }

  /** `distinct()`: the first occurrence of every value, in order. */
  function Distinct(s: seq<string>): (r: seq<string>)
    ensures forall x :: x in r <==> x in s
    ensures forall i, j :: 0 <= i < j < |r| ==> r[i] != r[j]
  {
    if s == [] then []
    else
      var d := Distinct(s[..|s| - 1]);
      assert s == s[..|s| - 1] + [s[|s| - 1]];
      if s[|s| - 1] in d then d else d + [s[|s| - 1]]
  }

  /** The cleaned category list every writer stores: trimmed, without empties, without repeats. */
  function CleanCategories(cs: seq<string>): (r: seq<string>)
    ensures forall c :: c in r ==> CleanCategory(c)
    ensures forall i, j :: 0 <= i < j < |r| ==> r[i] != r[j]
    ensures forall c :: c in r <==> c in Trims(cs) && c != []
  {
    Distinct(TrimmedNonEmpty(cs))
  }

  /** `readCategories`: missing or blank text and the untranslated legacy list both read as the fallback. */
  function ReadCategories(stored: Option<string>, fallback: seq<string>, legacyFallback: seq<string>): (r: seq<string>)
    ensures stored.None? || IsBlank(stored.value) ==> r == fallback
    ensures r != fallback ==> forall c :: c in r ==> CleanCategory(c)
  {
    if stored.None? || IsBlank(stored.value) then fallback
    else
      var parsed := TrimmedNonEmpty(Split(stored.value, CATEGORY_DELIMITER));
      if parsed == legacyFallback then fallback else parsed
  }

  /** `joinToString(",")`, or the key removed when nothing is left. */
  function CategoriesText(cs: seq<string>): Option<string> {
    if cs == [] then None else Some(Join(cs, CATEGORY_DELIMITER))
  }

  /** Cleaned, comma-free categories are their own trimmed form. */
  lemma {:induction false} TrimmedNonEmptyFixed(cs: seq<string>)
    requires forall i :: 0 <= i < |cs| ==> CleanCategory(cs[i])
    ensures TrimmedNonEmpty(cs) == cs
  {
    if cs != [] {
      TrimmedNonEmptyFixed(cs[1..]);
      assert cs == [cs[0]] + cs[1..];
    }
  }

  /**
   * The text written for a cleaned, comma-free category list is not blank
   * and parses back to that list.
   */
  lemma ParseWrittenCategories(cs: seq<string>)
    requires forall i :: 0 <= i < |cs| ==> CATEGORY_DELIMITER !in cs[i]
    requires CleanCategories(cs) != []
    ensures var text := Join(CleanCategories(cs), CATEGORY_DELIMITER);
            !IsBlank(text) && TrimmedNonEmpty(Split(text, CATEGORY_DELIMITER)) == CleanCategories(cs)
  {
    var c := CleanCategories(cs);
    forall i | 0 <= i < |c|
      ensures CATEGORY_DELIMITER !in c[i] && CleanCategory(c[i])
    {
      assert c[i] in c;
      var j :| 0 <= j < |cs| && Trims(cs)[j] == c[i];
      TrimWithin(cs[j], CATEGORY_DELIMITER);
    }
    SplitJoin(c, CATEGORY_DELIMITER);
    TrimmedNonEmptyFixed(c);
    var text := Join(c, CATEGORY_DELIMITER);
    assert text[0] == c[0][0];
    assert !IsBlank(text);
  }

  /** The snapshot `snapshot()` reads from the preferences. */
  function SnapshotOf(p: Prefs, env: Env): (s: SettingsSnapshot)
    ensures s.languageCode in SUPPORTED
    ensures s.updatedAt == p.settingsUpdatedAt.GetOr(0) && s.dirty == p.settingsDirty.GetOr(false)
    ensures s.budgetCycleStartDay == EffectiveStartDay(p)
    ensures p.currency.None? ==> s.currencyCode == DEFAULT_CURRENCY
  {
    SettingsSnapshot(
      Sanitize(Some(p.language.GetOr(env.deviceLanguage))),
      p.currency.GetOr(DEFAULT_CURRENCY),
      ReadCategories(p.expenseCategories, env.defaultExpense, LEGACY_EXPENSE_CATEGORIES),
      ReadCategories(p.incomeCategories, env.defaultIncome, LEGACY_INCOME_CATEGORIES),
      p.budget,
      EffectiveStartDay(p),
      p.themeMode.GetOr(DEFAULT_THEME_MODE),
      p.accentColor.GetOr(DEFAULT_ACCENT_COLOR),
      p.baselineAmount,
      p.baselineDate,
      p.settingsUpdatedAt.GetOr(0),
      p.settingsDirty.GetOr(false))
  }

  /** `takeIf { it >= 0 }` on an optional amount. */
  function NonNegativeOrNone(x: Option<int>): (r: Option<int>)
    ensures r.Some? <==> x.Some? && x.value >= 0
    ensures r.Some? ==> r == x
  {
    if x.Some? && x.value >= 0 then x else None
  }

  /** `takeIf { it > 0 }` on an optional date. */
  function PositiveOrNone(x: Option<int>): (r: Option<int>)
    ensures r.Some? <==> x.Some? && x.value > 0
    ensures r.Some? ==> r == x
  {
    if x.Some? && x.value > 0 then x else None
  }

  /** The start day stored under its key: the default is stored as an absent key. */
  function StartDayKey(day: int): Option<int> {
    if day == DEFAULT_BUDGET_CYCLE_START_DAY then None else Some(day)
  }

  /**
   * The preferences after `applyRemoteSettings(s)`: every field replaced by
   * its sanitized remote value and the settings left clean at the remote time.
   */
  function RemoteApplied(p: Prefs, s: SettingsSnapshot): (r: Prefs)
    ensures r.settingsDirty == Some(false) && r.settingsUpdatedAt == Some(s.updatedAt)
    ensures r.legacyCycleEndDay.None?
    ensures r.lastDeltaSyncAt == p.lastDeltaSyncAt && r.savingsGoals == p.savingsGoals
    ensures r.legacySavingsGoal == p.legacySavingsGoal && r.legacySavingsProgress == p.legacySavingsProgress
    ensures r.baselineAmount.Some? <==> r.baselineDate.Some?
  {
    var amount := NonNegativeOrNone(s.balanceBaselineAmount);
    var date := PositiveOrNone(s.balanceBaselineDateMillis);
    var both := amount.Some? && date.Some?;
    MarkedClean(
      p.(language := Some(Sanitize(Some(s.languageCode))),
         currency := Some(s.currencyCode),
         expenseCategories := CategoriesText(CleanCategories(s.expenseCategories)),
         incomeCategories := CategoriesText(CleanCategories(s.incomeCategories)),
         budget := NonNegativeOrNone(s.budgetMonthly),
         cycleStartDay := StartDayKey(Clamp(s.budgetCycleStartDay, 1, 31)),
         legacyCycleEndDay := None,
         baselineAmount := if both then amount else None,
         baselineDate := if both then date else None,
         themeMode := Some(s.themeMode),
         accentColor := Some(s.accentColor)),
      s.updatedAt)
  }

  /** The category list a reader sees after a remote list was applied. */
  function ReadBack(remote: seq<string>, fallback: seq<string>, legacyFallback: seq<string>): seq<string> {
    var c := CleanCategories(remote);
    if c == [] || c == legacyFallback then fallback else c
  }

  /** Reading a category list the store wrote from `cs`. */
  lemma WrittenCategoriesReadBack(cs: seq<string>, fallback: seq<string>, legacyFallback: seq<string>)
    requires forall i :: 0 <= i < |cs| ==> CATEGORY_DELIMITER !in cs[i]
    ensures ReadCategories(CategoriesText(CleanCategories(cs)), fallback, legacyFallback)
            == ReadBack(cs, fallback, legacyFallback)
  {
    var c := CleanCategories(cs);
    if c != [] {
      ParseWrittenCategories(cs);
    }
  }

  /**
   * Reading the settings right after a remote snapshot was applied gives
   * back the sanitized remote values, clean at the remote time.
   */
  lemma AppliedSnapshotReadsBack(p: Prefs, s: SettingsSnapshot, env: Env)
    requires forall i :: 0 <= i < |s.expenseCategories| ==> CATEGORY_DELIMITER !in s.expenseCategories[i]
    requires forall i :: 0 <= i < |s.incomeCategories| ==> CATEGORY_DELIMITER !in s.incomeCategories[i]
    ensures var r := SnapshotOf(RemoteApplied(p, s), env);
            && r.languageCode == Sanitize(Some(s.languageCode))
            && r.currencyCode == s.currencyCode
            && r.expenseCategories == ReadBack(s.expenseCategories, env.defaultExpense, LEGACY_EXPENSE_CATEGORIES)
            && r.incomeCategories == ReadBack(s.incomeCategories, env.defaultIncome, LEGACY_INCOME_CATEGORIES)
            && r.budgetMonthly == NonNegativeOrNone(s.budgetMonthly)
            && r.budgetCycleStartDay == Clamp(s.budgetCycleStartDay, 1, 31)
            && r.themeMode == s.themeMode && r.accentColor == s.accentColor
            && !r.dirty && r.updatedAt == s.updatedAt
  {
    var q := RemoteApplied(p, s);
    SanitizeIdempotent(Some(s.languageCode));
    WrittenCategoriesReadBack(s.expenseCategories, env.defaultExpense, LEGACY_EXPENSE_CATEGORIES);
    WrittenCategoriesReadBack(s.incomeCategories, env.defaultIncome, LEGACY_INCOME_CATEGORIES);
    assert q.expenseCategories == CategoriesText(CleanCategories(s.expenseCategories));
    assert q.incomeCategories == CategoriesText(CleanCategories(s.incomeCategories));
    assert q.language == Some(Sanitize(Some(s.languageCode)));
  }

  /**
   * `setBudgetCycleStartDay` as written: the new day is compared with the
   * stored key (or the default) only, while the legacy end-day key, which
   * also decides the day that is read, is removed unconditionally.
   */
  function StartDayEditAsWritten(p: Prefs, day: Option<int>, now: int): (r: Prefs)
    ensures r.legacyCycleEndDay.None?
    ensures EffectiveStartDay(r) == (if day.Some? then Clamp(day.value, 1, 31) else DEFAULT_BUDGET_CYCLE_START_DAY)
    ensures var newValue := if day.Some? then Clamp(day.value, 1, 31) else DEFAULT_BUDGET_CYCLE_START_DAY;
            if newValue != p.cycleStartDay.GetOr(DEFAULT_BUDGET_CYCLE_START_DAY)
            then r.settingsDirty == Some(true) && r.settingsUpdatedAt == Some(now)
            else r == p.(legacyCycleEndDay := None)
  {
    var sanitized := if day.Some? then Some(Clamp(day.value, 1, 31)) else None;
    var current := p.cycleStartDay.GetOr(DEFAULT_BUDGET_CYCLE_START_DAY);
    var newValue := sanitized.GetOr(DEFAULT_BUDGET_CYCLE_START_DAY);
    var edited := if newValue != current then MarkedDirty(p.(cycleStartDay := StartDayKey(newValue)), now) else p;
    edited.(legacyCycleEndDay := None)
  }

  /**
   * With a legacy end day of 14 the store reads day 15; setting day 1 then
   * changes the day read to 1 without marking the settings dirty, so the
   * change is never pushed.
   */
  lemma StartDayEditMissesLegacyChange(now: int)
    ensures var p := EMPTY_PREFS.(legacyCycleEndDay := Some(14));
            var r := StartDayEditAsWritten(p, Some(1), now);
            && EffectiveStartDay(p) == 15
            && EffectiveStartDay(r) == 1
            && r.settingsDirty == p.settingsDirty
  {
  }

  /**
   * `setBudgetCycleStartDay`, compared against the day the store actually
   * reads: the key always ends up holding the new day, and the settings
   * are marked dirty exactly when that day changes.
   */
  function StartDayEdit(p: Prefs, day: Option<int>, now: int): (r: Prefs)
    ensures r.legacyCycleEndDay.None?
    ensures EffectiveStartDay(r) == (if day.Some? then Clamp(day.value, 1, 31) else DEFAULT_BUDGET_CYCLE_START_DAY)
    ensures EffectiveStartDay(r) != EffectiveStartDay(p) ==> r.settingsDirty == Some(true) && r.settingsUpdatedAt == Some(now)
    ensures EffectiveStartDay(r) == EffectiveStartDay(p) ==>
              r.settingsDirty == p.settingsDirty && r.settingsUpdatedAt == p.settingsUpdatedAt
  {
    var newValue := if day.Some? then Clamp(day.value, 1, 31) else DEFAULT_BUDGET_CYCLE_START_DAY;
    var stored := p.(cycleStartDay := StartDayKey(newValue), legacyCycleEndDay := None);
    if newValue != EffectiveStartDay(p) then MarkedDirty(stored, now) else stored
  }
}
