/**
 * The sync repository: the pull cycle (bootstrap, settings, transaction
 * deltas, savings goals), the push cycle and the wire mappers. Every call
 * to the remote service becomes a parameter carrying what the service
 * answered, or an out-parameter carrying what is sent to it.
 */
module SyncRepositories {
  import opened Wrappers
  import opened TransactionModel
  import opened TransactionStore
  import opened LanguageConfig
  import opened SavingsGoals
  import SavingsGoalDtos
  import opened GoalCodec
  import opened GoalMerge
  import opened SettingsPrefs
  import opened SettingsStores

  /** `EnsureUserResult`: whether the server has just created the user's document. */
  datatype EnsureUserResult = EnsureUserResult(bootstrapped: bool)

  /** A transaction as the server holds it: the row without its local sync envelope. */
  datatype TransactionDTO = TransactionDTO(
    id: string,
    uid: string,
    amount: int,
    currency: string,
    dateUtcMillis: int,
    monthKey: string,
    category: string,
    note: Option<string>,
    planned: bool,
    deleted: bool,
    txType: TxType,
    updatedAtServer: Option<int>,
    savingsGoalId: Option<string>,
    savingsImpact: int)

  datatype SettingsDTO = SettingsDTO(
    languageCode: string,
    currencyCode: string,
    expenseCategories: seq<string>,
    incomeCategories: seq<string>,
    budgetMonthly: Option<int>,
    budgetCycleStartDay: int,
    themeMode: string,
    accentColor: string,
    balanceBaselineAmount: Option<int>,
    balanceBaselineDateMillis: Option<int>,
    updatedAt: int)

  /** `TransactionDTO.toEntity()`: a clean row stamped locally at `now`. */
  function ToEntity(dto: TransactionDTO, now: int): (t: Transaction)
    ensures !t.dirty && t.pendingOp.None? && t.updatedAtLocal == now
    ensures t.id == dto.id && t.updatedAtServer == dto.updatedAtServer && t.deleted == dto.deleted
  {
    Transaction(dto.id, dto.uid, dto.amount, dto.currency, dto.dateUtcMillis, dto.monthKey, dto.category,
                dto.note, dto.planned, dto.deleted, false, None, now, dto.updatedAtServer, dto.txType,
                dto.savingsGoalId, dto.savingsImpact)
  }

  /** `Transaction.toDto()`: the row without `dirty`, `pendingOp` and `updatedAtLocal`. */
  function TransactionToDto(t: Transaction): (dto: TransactionDTO)
    ensures dto.id == t.id && dto.updatedAtServer == t.updatedAtServer && dto.deleted == t.deleted
  {
    TransactionDTO(t.id, t.uid, t.amount, t.currency, t.dateUtcMillis, t.monthKey, t.category, t.note,
                   t.planned, t.deleted, t.txType, t.updatedAtServer, t.savingsGoalId, t.savingsImpact)
  }

  /** A server row read and sent back is unchanged. */
  lemma DtoRoundTrip(dto: TransactionDTO, now: int)
    ensures TransactionToDto(ToEntity(dto, now)) == dto
  {
  }

  /** A local row sent and read back loses only its sync envelope. */
  lemma EntityRoundTrip(t: Transaction)
    ensures ToEntity(TransactionToDto(t), t.updatedAtLocal) == t.(dirty := false, pendingOp := None)
  {
  }

  /** `SettingsDTO.toSnapshot()`: the language sanitized, the snapshot clean. */
  function ToSnapshot(dto: SettingsDTO): (s: SettingsSnapshot)
    ensures !s.dirty && s.updatedAt == dto.updatedAt && s.languageCode in SUPPORTED
  {
    SettingsSnapshot(Sanitize(Some(dto.languageCode)), dto.currencyCode, dto.expenseCategories,
                     dto.incomeCategories, dto.budgetMonthly, dto.budgetCycleStartDay, dto.themeMode,
                     dto.accentColor, dto.balanceBaselineAmount, dto.balanceBaselineDateMillis, dto.updatedAt, false)
  }

  /** `SettingsSnapshot.toDto()`: the language sanitized, the dirty flag dropped. */
  function SettingsToDto(s: SettingsSnapshot): (dto: SettingsDTO)
    ensures dto.updatedAt == s.updatedAt && dto.languageCode in SUPPORTED
  {
    SettingsDTO(Sanitize(Some(s.languageCode)), s.currencyCode, s.expenseCategories, s.incomeCategories,
                s.budgetMonthly, s.budgetCycleStartDay, s.themeMode, s.accentColor, s.balanceBaselineAmount,
                s.balanceBaselineDateMillis, s.updatedAt)
  }

  /** The settings a device pushes come back as the same snapshot, clean. */
  lemma PushedSettingsReadBack(p: Prefs, env: Env)
    ensures ToSnapshot(SettingsToDto(SnapshotOf(p, env))) == SnapshotOf(p, env).(dirty := false)
  {
    var s := SnapshotOf(p, env);
    SanitizeIdempotent(Some(p.language.GetOr(env.deviceLanguage)));
    SanitizeIdempotent(Some(Sanitize(Some(s.languageCode))));
  }

  /**
   * Whether `syncSettings` applies the remote settings: never over local
   * edits, and otherwise only when the remote copy is strictly newer or
   * neither side was ever stamped.
   */
  function ShouldApplySettings(local: SettingsSnapshot, remoteUpdatedAt: int): (r: bool)
    ensures local.dirty ==> !r
    ensures r ==> remoteUpdatedAt >= local.updatedAt
    ensures !local.dirty && remoteUpdatedAt > local.updatedAt ==> r
    ensures remoteUpdatedAt == local.updatedAt ==> (r <==> !local.dirty && remoteUpdatedAt == 0)
  {
    !local.dirty && ((remoteUpdatedAt == 0 && local.updatedAt == 0) || remoteUpdatedAt > local.updatedAt)
  }

  /** Once applied, the same remote settings are not applied again unless they carry no timestamp. */
  lemma AppliedSettingsSettle(p: Prefs, env: Env, remote: SettingsDTO)
    ensures ShouldApplySettings(SnapshotOf(RemoteApplied(p, ToSnapshot(remote)), env), remote.updatedAt)
            <==> remote.updatedAt == 0
  {
  }

  /** Local edits always win over the server's settings. */
  lemma DirtySettingsAreKept(p: Prefs, env: Env, remoteUpdatedAt: int)
    requires p.settingsDirty == Some(true)
    ensures !ShouldApplySettings(SnapshotOf(p, env), remoteUpdatedAt)
  {
  }

  // ---------------------------------------------------------------------
  // The delta phase of `pullAndMerge`

  /** The timestamp a delta carries; a missing one counts as 0. */
  function RemoteTs(dto: TransactionDTO): int {
    dto.updatedAtServer.GetOr(0)
  }

  /** The timestamp an applied delta is stored with: its own when positive, else `now`. */
  function AppliedTs(remoteTs: int, now: int): (r: int)
    ensures remoteTs > 0 ==> r == remoteTs
    ensures remoteTs <= 0 ==> r == now
  {
    if remoteTs > 0 then remoteTs else now
  }

  /** The local row the delta is compared with. */
  function LocalRow(rows: map<string, Transaction>, id: string): (r: Option<Transaction>)
    ensures r.Some? <==> id in rows
    ensures r.Some? ==> r.value == rows[id]
  {
    if id in rows then Some(rows[id]) else None
  }

  /** A delta is taken when there is no local row, or a clean one the delta is not older than. */
  function Accepts(local: Option<Transaction>, remoteTs: int): (r: bool)
    ensures local.None? ==> r
    ensures local.Some? && local.value.dirty ==> !r
    ensures r && local.Some? ==> remoteTs >= local.value.updatedAtServer.GetOr(0)
    ensures local.Some? && !local.value.dirty && remoteTs >= local.value.updatedAtServer.GetOr(0) ==> r
  {
    match local
    case None => true
    case Some(t) => !t.dirty && remoteTs >= t.updatedAtServer.GetOr(0)
  }

  /** The row an accepted delta is written as. */
  function Incoming(dto: TransactionDTO, now: int): (t: Transaction)
    ensures !t.dirty && t.pendingOp.None? && t.updatedAtLocal == now
    ensures t.updatedAtServer == Some(AppliedTs(RemoteTs(dto), now))
    ensures TransactionToDto(t) == dto.(updatedAtServer := Some(AppliedTs(RemoteTs(dto), now)))
  {
    ToEntity(dto, now).(updatedAtServer := Some(AppliedTs(RemoteTs(dto), now)))
  }

  /** The table, the number of deltas written and the newest timestamp written so far. */
  datatype DeltaOutcome = DeltaOutcome(rows: map<string, Transaction>, merged: nat, latest: int)

  /**
   * One delta of the `forEach`: an accepted delta replaces row `dto.id`, is
   * counted and raises the newest timestamp; a refused one changes nothing.
   */
  function DeltaStep(st: DeltaOutcome, dto: TransactionDTO, now: int): (r: DeltaOutcome)
    ensures Accepts(LocalRow(st.rows, dto.id), RemoteTs(dto)) ==>
              && dto.id in r.rows && r.rows[dto.id] == Incoming(dto, now)
              && r.merged == st.merged + 1
              && r.latest >= AppliedTs(RemoteTs(dto), now) && r.latest >= st.latest
              && (r.latest == AppliedTs(RemoteTs(dto), now) || r.latest == st.latest)
    ensures !Accepts(LocalRow(st.rows, dto.id), RemoteTs(dto)) ==> r == st
    ensures r.rows.Keys == st.rows.Keys + {dto.id}
    ensures forall id :: id in st.rows && id != dto.id ==> r.rows[id] == st.rows[id]
  {
    if Accepts(LocalRow(st.rows, dto.id), RemoteTs(dto)) then
      var applied := AppliedTs(RemoteTs(dto), now);
      DeltaOutcome(st.rows[dto.id := Incoming(dto, now)], st.merged + 1,
                   if applied > st.latest then applied else st.latest)
    else st
  }

  /** The deltas applied in order, starting from the checkpoint `since`. */
  function DeltaMerge(rows: map<string, Transaction>, deltas: seq<TransactionDTO>, since: int, now: int)
    : (r: DeltaOutcome)
    ensures r.merged <= |deltas|
    ensures r.latest >= since
    ensures rows.Keys <= r.rows.Keys
  {
    if deltas == [] then DeltaOutcome(rows, 0, since)
    else DeltaStep(DeltaMerge(rows, deltas[..|deltas| - 1], since, now), deltas[|deltas| - 1], now)
  }

  /** Delta `i` is taken against the table the deltas before it left. */
  predicate AcceptedAt(rows: map<string, Transaction>, deltas: seq<TransactionDTO>, since: int, now: int, i: int) {
    0 <= i < |deltas|
    && Accepts(LocalRow(DeltaMerge(rows, deltas[..i], since, now).rows, deltas[i].id), RemoteTs(deltas[i]))
  }

  /** Whether delta `i` is taken does not depend on the deltas after it. */
  lemma AcceptedAtPrefix(rows: map<string, Transaction>, deltas: seq<TransactionDTO>, since: int, now: int, i: int)
    requires 0 <= i < |deltas| - 1
    ensures AcceptedAt(rows, deltas, since, now, i) <==> AcceptedAt(rows, deltas[..|deltas| - 1], since, now, i)
  {
    assert deltas[..|deltas| - 1][..i] == deltas[..i];
  }

  /** The newest timestamp covers the applied time of every accepted delta. */
  lemma {:induction false} DeltaMergeLatestCovers(rows: map<string, Transaction>, deltas: seq<TransactionDTO>,
                                                  since: int, now: int)
    ensures forall i :: AcceptedAt(rows, deltas, since, now, i) ==>
              AppliedTs(RemoteTs(deltas[i]), now) <= DeltaMerge(rows, deltas, since, now).latest
  {
    if deltas != [] {
      var init := deltas[..|deltas| - 1];
      var prev := DeltaMerge(rows, init, since, now);
      var r := DeltaMerge(rows, deltas, since, now);
      assert r == DeltaStep(prev, deltas[|deltas| - 1], now);
      DeltaMergeLatestCovers(rows, init, since, now);
      forall i | AcceptedAt(rows, deltas, since, now, i)
        ensures AppliedTs(RemoteTs(deltas[i]), now) <= r.latest
      {
        if i < |init| {
          AcceptedAtPrefix(rows, deltas, since, now, i);
        } else {
          assert deltas[..i] == init;
        }
      }
    }
  }

  /**
   * The newest timestamp is `since` or the applied time of an accepted
   * delta; with `DeltaMergeLatestCovers`, it is the largest of these.
   */
  lemma {:induction false} DeltaMergeLatestAttained(rows: map<string, Transaction>, deltas: seq<TransactionDTO>,
                                                    since: int, now: int)
    ensures var r := DeltaMerge(rows, deltas, since, now);
            r.latest == since ||
            exists i :: AcceptedAt(rows, deltas, since, now, i) && r.latest == AppliedTs(RemoteTs(deltas[i]), now)
  {
    if deltas != [] {
      var init := deltas[..|deltas| - 1];
      var prev := DeltaMerge(rows, init, since, now);
      var r := DeltaMerge(rows, deltas, since, now);
      assert r == DeltaStep(prev, deltas[|deltas| - 1], now);
      DeltaMergeLatestAttained(rows, init, since, now);
      if r.latest != since {
        if r.latest == prev.latest {
          var i :| AcceptedAt(rows, init, since, now, i) && prev.latest == AppliedTs(RemoteTs(init[i]), now);
          AcceptedAtPrefix(rows, deltas, since, now, i);
          assert AcceptedAt(rows, deltas, since, now, i);
        } else {
          assert deltas[..|deltas| - 1] == init;
          assert AcceptedAt(rows, deltas, since, now, |deltas| - 1);
        }
      }
    }
  }

  /** A dirty local row is never overwritten by a delta. */
  lemma {:induction false} DeltaMergeKeepsDirty(rows: map<string, Transaction>, deltas: seq<TransactionDTO>,
                                                since: int, now: int)
    ensures forall id :: id in rows && rows[id].dirty ==> DeltaMerge(rows, deltas, since, now).rows[id] == rows[id]
  {
    if deltas != [] {
      DeltaMergeKeepsDirty(rows, deltas[..|deltas| - 1], since, now);
    }
  }

  /** Row `t` is delta `i` for `id`, written clean with a timestamp that `latest` covers. */
  predicate WrittenFrom(deltas: seq<TransactionDTO>, i: int, id: string, t: Transaction, latest: int, now: int) {
    0 <= i < |deltas| && deltas[i].id == id && t == Incoming(deltas[i], now)
    && AppliedTs(RemoteTs(deltas[i]), now) <= latest
  }

  /**
   * Every row the merge leaves is either the row that was there or a
   * delta for that id, written clean with a timestamp the new checkpoint
   * covers.
   */
  lemma {:induction false} DeltaMergeWrites(rows: map<string, Transaction>, deltas: seq<TransactionDTO>,
                                            since: int, now: int, id: string)
    requires id in DeltaMerge(rows, deltas, since, now).rows
    ensures var r := DeltaMerge(rows, deltas, since, now);
            (id in rows && r.rows[id] == rows[id]) ||
            (exists i :: WrittenFrom(deltas, i, id, r.rows[id], r.latest, now))
  {
    if deltas != [] {
      var init := deltas[..|deltas| - 1];
      var last := deltas[|deltas| - 1];
      var prev := DeltaMerge(rows, init, since, now);
      var r := DeltaMerge(rows, deltas, since, now);
      assert r == DeltaStep(prev, last, now);
      if id == last.id && r != prev {
        assert WrittenFrom(deltas, |deltas| - 1, id, r.rows[id], r.latest, now);
      } else {
        assert id in prev.rows && r.rows[id] == prev.rows[id];
        DeltaMergeWrites(rows, init, since, now, id);
        if !(id in rows && prev.rows[id] == rows[id]) {
          var i :| WrittenFrom(init, i, id, prev.rows[id], prev.latest, now);
          assert WrittenFrom(deltas, i, id, r.rows[id], r.latest, now);
        }
      }
    }
  }

  /**
   * A delta older than a clean local row is ignored: when every delta for
   * `id` carries a server time before the row's `updatedAtServer`, the row
   * comes out as it went in.
   */
  lemma {:induction false} DeltaMergeIgnoresOlder(rows: map<string, Transaction>, deltas: seq<TransactionDTO>,
                                                  since: int, now: int, id: string)
    requires id in rows && !rows[id].dirty
    requires forall i :: 0 <= i < |deltas| && deltas[i].id == id ==>
               RemoteTs(deltas[i]) < rows[id].updatedAtServer.GetOr(0)
    ensures id in DeltaMerge(rows, deltas, since, now).rows
    ensures DeltaMerge(rows, deltas, since, now).rows[id] == rows[id]
  {
    if deltas != [] {
      var init := deltas[..|deltas| - 1];
      DeltaMergeIgnoresOlder(rows, init, since, now, id);
    }
  }

  /**
   * A delta the server sent once for `id` is written when there is no local
   * row, or a clean one it is not older than.
   */
  lemma {:induction false} DeltaMergeTakesAccepted(rows: map<string, Transaction>, deltas: seq<TransactionDTO>,
                                                   since: int, now: int, k: nat)
    requires k < |deltas|
    requires forall i :: 0 <= i < |deltas| && i != k ==> deltas[i].id != deltas[k].id
    requires Accepts(LocalRow(rows, deltas[k].id), RemoteTs(deltas[k]))
    ensures deltas[k].id in DeltaMerge(rows, deltas, since, now).rows
    ensures DeltaMerge(rows, deltas, since, now).rows[deltas[k].id] == Incoming(deltas[k], now)
  {
    var init := deltas[..|deltas| - 1];
    if k == |deltas| - 1 {
      DeltaMergeOnlyListed(rows, init, since, now, deltas[k].id);
      assert LocalRow(DeltaMerge(rows, init, since, now).rows, deltas[k].id) == LocalRow(rows, deltas[k].id);
    } else {
      assert init[k] == deltas[k];
      DeltaMergeTakesAccepted(rows, init, since, now, k);
    }
  }

  /** The merge writes no id it was not sent. */
  lemma {:induction false} DeltaMergeOnlyListed(rows: map<string, Transaction>, deltas: seq<TransactionDTO>,
                                                since: int, now: int, id: string)
    requires forall i :: 0 <= i < |deltas| ==> deltas[i].id != id
    ensures id in DeltaMerge(rows, deltas, since, now).rows <==> id in rows
    ensures id in rows ==> DeltaMerge(rows, deltas, since, now).rows[id] == rows[id]
  {
    if deltas != [] {
      DeltaMergeOnlyListed(rows, deltas[..|deltas| - 1], since, now, id);
    }
  }

  // ---------------------------------------------------------------------
  // Bootstrap

  /** Every row re-offered for upload, as `markAllDirty(now)` leaves the table. */
  function ReflagRows(rows: map<string, Transaction>, now: int): (r: map<string, Transaction>)
    ensures r.Keys == rows.Keys
    ensures forall id :: id in r ==> r[id] == Reflagged(rows[id], now)
  {
    map id | id in rows :: Reflagged(rows[id], now)
  }

  /** The preferences after `handleBootstrap`: dirty settings, every goal pending, the checkpoint at 0. */
  function BootstrapPrefs(p: Prefs, env: Env, now: int): (r: Prefs)
    ensures r.settingsDirty == Some(true) && r.settingsUpdatedAt == Some(now)
    ensures r.lastDeltaSyncAt == Some(0)
  {
    MarkedDirty(p, now).(language := Some(Sanitize(Some(p.language.GetOr(env.deviceLanguage)))),
                         savingsGoals := GoalsText(ReflagAll(DecodeGoals(p.savingsGoals), now)),
                         lastDeltaSyncAt := Some(0))
  }

  /** The table after `handleBootstrap` with the server's answer `boot`. */
  function BootRows(rows: map<string, Transaction>, boot: bool, now: int): map<string, Transaction> {
    if boot then ReflagRows(rows, now) else rows
  }

  /** The preferences after `handleBootstrap` with the server's answer `boot`. */
  function BootPrefs(p: Prefs, env: Env, boot: bool, now: int): Prefs {
    if boot then BootstrapPrefs(p, env, now) else p
  }

  /** After a bootstrap everything the device holds is offered to the new server document. */
  lemma BootstrapReoffersEverything(rows: map<string, Transaction>, p: Prefs, env: Env, now: int)
    ensures forall id :: id in BootRows(rows, true, now) ==>
              BootRows(rows, true, now)[id].dirty && BootRows(rows, true, now)[id].pendingOp.Some?
    ensures SnapshotOf(BootPrefs(p, env, true, now), env).dirty
    ensures forall g :: g in Persisted(ReflagAll(DecodeGoals(p.savingsGoals), now)) ==> g.pendingOp.Some?
  {
    ReflagAllPending(DecodeGoals(p.savingsGoals), now);
  }

  // ---------------------------------------------------------------------
  // The settings phase

  /** Whether the settings phase of a pull applies the server's settings; never right after a bootstrap. */
  predicate AppliesSettings(p: Prefs, env: Env, boot: bool, remote: Option<SettingsDTO>) {
    !boot && remote.Some? && ShouldApplySettings(SnapshotOf(p, env), remote.value.updatedAt)
  }

  /** The preferences after the settings phase of a pull. */
  function SettingsPhase(p: Prefs, env: Env, boot: bool, remote: Option<SettingsDTO>): (r: Prefs)
    ensures r.lastDeltaSyncAt == p.lastDeltaSyncAt
    ensures p.settingsDirty == Some(true) ==> r == p
    ensures boot || remote.None? ==> r == p
  {
    if AppliesSettings(p, env, boot, remote) then RemoteApplied(p, ToSnapshot(remote.value)) else p
  }

  // ---------------------------------------------------------------------
  // The goal phase

  /** A pending goal as pushed: never-stamped goals take `now`. */
  function Stamped(g: SavingsGoal, now: int): (r: SavingsGoal)
    ensures r == g.(updatedAt := r.updatedAt)
    ensures g.updatedAt > 0 ==> r.updatedAt == g.updatedAt
    ensures g.updatedAt <= 0 ==> r.updatedAt == now
  {
    g.(updatedAt := if g.updatedAt > 0 then g.updatedAt else now)
  }

  /** The goal DTOs `pushSavingsGoals` is sent. */
  function PushedGoals(pending: seq<SavingsGoal>, now: int): (r: seq<SavingsGoalDtos.SavingsGoalDTO>)
    ensures |r| == |pending|
    ensures forall i :: 0 <= i < |pending| ==> r[i].id == pending[i].id && r[i].deleted == pending[i].deleted
  {
    seq(|pending|, i requires 0 <= i < |pending| => SavingsGoalDtos.ToDto(Stamped(pending[i], now), now))
  }

  /** The acknowledgements the push hands back to the store: the stamped goals, no longer pending. */
  function GoalAcks(pending: seq<SavingsGoal>, now: int): (r: seq<SavingsGoal>)
    ensures |r| == |pending|
    ensures forall i :: 0 <= i < |pending| ==> r[i] == Stamped(pending[i], now).(pendingOp := None)
  {
    seq(|pending|, i requires 0 <= i < |pending| => Stamped(pending[i], now).(pendingOp := None))
  }

  /** Acknowledging every pending goal leaves none pending: the goal push settles. */
  lemma GoalPushSettles(gs: seq<SavingsGoal>, now: int)
    ensures forall x :: x in AckGoals(gs, GoalAcks(PendingGoals(gs), now)) ==>
              x.pendingOp.None? || x.id == LEGACY_GOAL_ID
  {
    var acks := GoalAcks(PendingGoals(gs), now);
    forall x | x in AckGoals(gs, acks) ensures x.pendingOp.None? || x.id == LEGACY_GOAL_ID {
      AckedGoalSettled(gs, now, x);
    }
  }

  /** One goal of the acknowledged list: either its own ack cleared it, or it was never pending. */
  lemma AckedGoalSettled(gs: seq<SavingsGoal>, now: int, x: SavingsGoal)
    requires x in AckGoals(gs, GoalAcks(PendingGoals(gs), now))
    ensures x.pendingOp.None? || x.id == LEGACY_GOAL_ID
  {
    var acks := GoalAcks(PendingGoals(gs), now);
    if x in Extras(KeyOrder(acks), acks, gs) {
      AcksAreClean(PendingGoals(gs), now, LastWithId(acks, x.id).value);
    } else if x in gs && x.pendingOp.Some? && x.id != LEGACY_GOAL_ID {
      PendingAcked(gs, now, x);
    }
  }

  /** Every acknowledgement the push builds is clean. */
  lemma AcksAreClean(pending: seq<SavingsGoal>, now: int, a: SavingsGoal)
    requires a in GoalAcks(pending, now)
    ensures a.pendingOp.None?
  {
    var acks := GoalAcks(pending, now);
    var i :| 0 <= i < |acks| && acks[i] == a;
  }

  /** Every pending goal the push sends comes back with an acknowledgement. */
  lemma PendingAcked(gs: seq<SavingsGoal>, now: int, x: SavingsGoal)
    requires x in gs && x.pendingOp.Some? && x.id != LEGACY_GOAL_ID
    ensures HasId(GoalAcks(PendingGoals(gs), now), x.id)
  {
    var pending := PendingGoals(gs);
    var i :| 0 <= i < |pending| && pending[i] == x;
    assert GoalAcks(pending, now)[i].id == x.id;
  }

  /** The goal text after the pending goals were pushed and acknowledged. */
  function PushedGoalsText(text: Option<string>, now: int): (r: Option<string>)
    ensures PendingGoals(DecodeGoals(text)) == [] ==> r == text
  {
    AckedGoalsText(text, GoalAcks(PendingGoals(DecodeGoals(text)), now))
  }

  /** The preferences after `syncSavingsGoalsInternal` with the server's goals `remote`. */
  function GoalPhase(p: Prefs, remote: seq<SavingsGoal>, now: int): (r: Prefs)
    ensures r == p.(savingsGoals := r.savingsGoals)
  {
    p.(savingsGoals := PushedGoalsText(MergedGoalsText(p.savingsGoals, remote), now))
  }

  /** What `syncSavingsGoalsInternal` reports: goals merged plus goals pushed. */
  function GoalCount(p: Prefs, remote: seq<SavingsGoal>): nat {
    MergedCount(p.savingsGoals, remote) + |PendingGoals(DecodeGoals(MergedGoalsText(p.savingsGoals, remote)))|
  }

  /** The server's goals as the store sees them. */
  function Domain(dtos: seq<SavingsGoalDtos.SavingsGoalDTO>): (r: seq<SavingsGoal>)
    ensures |r| == |dtos|
    ensures forall i :: 0 <= i < |dtos| ==> r[i] == SavingsGoalDtos.ToDomain(dtos[i])
  {
    seq(|dtos|, i requires 0 <= i < |dtos| => SavingsGoalDtos.ToDomain(dtos[i]))
  }

  // ---------------------------------------------------------------------
  // The pull cycle

  /** The checkpoint write after the delta loop: only a newer timestamp is stored. */
  function Checkpointed(p: Prefs, since: int, latest: int): (r: Prefs)
    ensures latest > since ==> r == p.(lastDeltaSyncAt := Some(latest))
    ensures latest <= since ==> r == p
  {
    if latest > since then p.(lastDeltaSyncAt := Some(latest)) else p
  }

  /** The preferences after a pull in which the delta loop ended at `latest`. */
  function PulledPrefs(p: Prefs, env: Env, boot: bool, remote: Option<SettingsDTO>, latest: int,
                       goals: seq<SavingsGoal>, now: int): Prefs {
    var settled := SettingsPhase(BootPrefs(p, env, boot, now), env, boot, remote);
    GoalPhase(Checkpointed(settled, settled.lastDeltaSyncAt.GetOr(0), latest), goals, now)
  }

  /** The checkpoint a pull starts the delta loop from. */
  function PullSince(p: Prefs, env: Env, boot: bool, now: int): int {
    BootPrefs(p, env, boot, now).lastDeltaSyncAt.GetOr(0)
  }

  /**
   * After a pull the checkpoint is exactly the newest timestamp the delta
   * loop reached: never lower than where it started, and covering every
   * row the loop wrote.
   */
  lemma PullCheckpoint(p: Prefs, env: Env, boot: bool, remote: Option<SettingsDTO>,
                       rows: map<string, Transaction>, deltas: seq<TransactionDTO>, goals: seq<SavingsGoal>, now: int)
    ensures var since := PullSince(p, env, boot, now);
            var outcome := DeltaMerge(BootRows(rows, boot, now), deltas, since, now);
            var after := PulledPrefs(p, env, boot, remote, outcome.latest, goals, now);
            after.lastDeltaSyncAt.GetOr(0) == outcome.latest && outcome.latest >= since
  {
  }

  // ---------------------------------------------------------------------
  // The push cycle

  /** The keys of the rows waiting to be pushed. */
  function DirtyIds(rows: map<string, Transaction>): set<string> {
    set id | id in rows && rows[id].dirty
  }

  /** The table after `markSynced(ids, ack)`. */
  function SyncedRows(rows: map<string, Transaction>, ids: seq<string>, ack: int): (r: map<string, Transaction>)
    ensures r.Keys == rows.Keys
    ensures forall id :: id in r && id in ids ==> r[id] == Synced(rows[id], ack)
    ensures forall id :: id in r && id !in ids ==> r[id] == rows[id]
  {
    map id | id in rows :: if id in ids then Synced(rows[id], ack) else rows[id]
  }

  /**
   * The batch sent for the rows `dirty` returned: the stored dirty rows,
   * as many as the limit lets through, and all of them when it does not
   * cut the list short.
   */
  lemma DirtyBatch(rows: map<string, Transaction>, limit: int, dirty: seq<Transaction>)
    requires forall t :: t in dirty ==> t.dirty && t.id in rows && rows[t.id] == t
    requires |dirty| == Cap(limit, |DirtyIds(rows)|)
    requires limit < 0 || |dirty| < limit ==> forall t :: t in rows.Values && t.dirty ==> t in dirty
    ensures var batch := BatchDtos(dirty);
            && (forall d :: d in batch ==> d.id in rows && rows[d.id].dirty && TransactionToDto(rows[d.id]) == d)
            && |batch| == Cap(limit, |DirtyIds(rows)|)
            && (limit < 0 || |batch| < limit ==>
                  forall id :: id in DirtyIds(rows) ==> TransactionToDto(rows[id]) in batch)
  {
    var batch := BatchDtos(dirty);
    forall d | d in batch
      ensures d.id in rows && rows[d.id].dirty && TransactionToDto(rows[d.id]) == d
    {
      var i :| 0 <= i < |batch| && batch[i] == d;
      assert dirty[i] in dirty;
    }
    if limit < 0 || |batch| < limit {
      forall id | id in DirtyIds(rows)
        ensures TransactionToDto(rows[id]) in batch
      {
        assert rows[id] in rows.Values;
        var i :| 0 <= i < |dirty| && dirty[i] == rows[id];
        assert batch[i] == TransactionToDto(rows[id]);
      }
    }
  }

  function DtoIds(batch: seq<TransactionDTO>): (r: seq<string>)
    ensures |r| == |batch|
    ensures forall i :: 0 <= i < |batch| ==> r[i] == batch[i].id
  {
    seq(|batch|, i requires 0 <= i < |batch| => batch[i].id)
  }

  function BatchDtos(batch: seq<Transaction>): (r: seq<TransactionDTO>)
    ensures |r| == |batch|
    ensures forall i :: 0 <= i < |batch| ==> r[i] == TransactionToDto(batch[i])
  {
    seq(|batch|, i requires 0 <= i < |batch| => TransactionToDto(batch[i]))
  }

  /**
   * The preferences after a push: the checkpoint moves to the server's
   * answer when rows were acknowledged, dirty settings become clean at
   * their own time, and the pending goals are acknowledged.
   */
  function PushPrefs(p: Prefs, env: Env, synced: bool, ack: int, now: int): (r: Prefs)
    ensures r.lastDeltaSyncAt == if synced then Some(ack) else p.lastDeltaSyncAt
    ensures !SnapshotOf(r, env).dirty
    ensures SnapshotOf(p, env).dirty ==> r.settingsUpdatedAt == Some(SnapshotOf(p, env).updatedAt)
    ensures !SnapshotOf(p, env).dirty ==> r.settingsDirty == p.settingsDirty && r.settingsUpdatedAt == p.settingsUpdatedAt
    ensures r.savingsGoals == PushedGoalsText(p.savingsGoals, now)
    ensures r == p.(lastDeltaSyncAt := r.lastDeltaSyncAt, settingsDirty := r.settingsDirty,
                    settingsUpdatedAt := r.settingsUpdatedAt, savingsGoals := r.savingsGoals)
  {
    SettingsAndGoalsPushed(if synced then p.(lastDeltaSyncAt := Some(ack)) else p, SnapshotOf(p, env), now)
  }

  /** The second half of a push: settings clean when they were sent, pending goals acknowledged. */
  function SettingsAndGoalsPushed(p: Prefs, sent: SettingsSnapshot, now: int): Prefs {
    var clean := if sent.dirty then MarkedClean(p, sent.updatedAt) else p;
    clean.(savingsGoals := PushedGoalsText(p.savingsGoals, now))
  }

  /** With nothing acknowledged, clean settings and no pending goal, a push leaves the preferences alone. */
  lemma NothingToPush(p: Prefs, env: Env, ack: int, now: int)
    requires !SnapshotOf(p, env).dirty && PendingGoals(DecodeGoals(p.savingsGoals)) == []
    ensures PushPrefs(p, env, false, ack, now) == p
  {
  }

  /**
   * The push takes the server's acknowledgement as the new checkpoint
   * without comparing it with the old one, so an acknowledgement older than
   * the checkpoint moves it back.
   */
  lemma PushMayLowerCheckpoint(p: Prefs, env: Env, now: int)
    requires p.lastDeltaSyncAt == Some(100)
    ensures PushPrefs(p, env, true, 50, now).lastDeltaSyncAt == Some(50)
  {
  }

  class SyncRepository {
    const dao: TransactionDao
    const settings: SettingsStore

    /** The transaction table is not one of the settings objects. */
    ghost predicate Valid()
      reads this, dao, settings, settings.Mirror()
    {
      dao.Valid() && settings.Valid() && {dao as object} !! ({settings as object} + settings.Mirror())
    }

    constructor (dao: TransactionDao, settings: SettingsStore)
      requires dao.Valid() && settings.Valid()
      ensures this.dao == dao && this.settings == settings
      ensures Valid()
    {
      this.dao := dao;
      this.settings := settings;
    }

    /** `handleBootstrap`: on a fresh server document everything local is re-offered and the checkpoint reset. */
    method HandleBootstrap(result: EnsureUserResult, now: int) returns (bootstrapped: bool)
      requires Valid()
      modifies dao, settings, settings.Mirror()
      ensures Valid()
      ensures bootstrapped == result.bootstrapped
      ensures dao.rows == BootRows(old(dao.rows), bootstrapped, now)
      ensures settings.prefs == BootPrefs(old(settings.prefs), settings.env, bootstrapped, now)
      ensures !bootstrapped && settings.dao.Some? ==> unchanged(settings.dao.value)
    {
      if !result.bootstrapped {
        return false;
      }
      dao.MarkAllDirty(now);
      assert dao.rows == ReflagRows(old(dao.rows), now);
      ghost var rows := dao.rows;
      settings.MarkAllDirtyForBootstrap(now);
      settings.SetLastDeltaSyncAt(0);
      assert settings.prefs == BootstrapPrefs(old(settings.prefs), settings.env, now);
      assert dao.rows == rows;
      return true;
    }

    /** `syncSettings`: applies the server's settings when `ShouldApplySettings` says so, and reports 1 then. */
    method SyncSettings(remote: Option<SettingsDTO>) returns (applied: nat)
      requires Valid()
      modifies settings, settings.Mirror()
      ensures Valid()
      ensures applied == if AppliesSettings(old(settings.prefs), settings.env, false, remote) then 1 else 0
      ensures settings.prefs == SettingsPhase(old(settings.prefs), settings.env, false, remote)
      ensures applied == 0 && settings.dao.Some? ==> unchanged(settings.dao.value)
    {
      if remote.None? {
        return 0;
      }
      var local := settings.Snapshot();
      if local.dirty {
        return 0;
      }
      var snapshot := ToSnapshot(remote.value);
      var shouldApply := (snapshot.updatedAt == 0 && local.updatedAt == 0) || snapshot.updatedAt > local.updatedAt;
      if shouldApply {
        settings.ApplyRemoteSettings(snapshot);
        return 1;
      }
      return 0;
    }

    /** The delta loop of `pullAndMerge`, run against the table. */
    method ApplyDeltas(deltas: seq<TransactionDTO>, since: int, now: int) returns (merged: nat, latest: int)
      requires dao.Valid()
      modifies dao
      ensures dao.Valid()
      ensures DeltaOutcome(dao.rows, merged, latest) == DeltaMerge(old(dao.rows), deltas, since, now)
    {
      merged := 0;
      latest := since;
      for i := 0 to |deltas|
        invariant dao.Valid()
        invariant DeltaOutcome(dao.rows, merged, latest) == DeltaMerge(old(dao.rows), deltas[..i], since, now)
      {
        assert deltas[..i + 1][..i] == deltas[..i];
        var dto := deltas[i];
        var remoteTs := dto.updatedAtServer.GetOr(0);
        var local := dao.GetById(dto.id);
        var localDirty := local.Some? && local.value.dirty;
        var localTs := if local.Some? then local.value.updatedAtServer.GetOr(0) else 0;
        if !localDirty && (local.None? || remoteTs >= localTs) {
          var appliedTs := if remoteTs > 0 then remoteTs else now;
          dao.Upsert(Incoming(dto, now));
          merged := merged + 1;
          if appliedTs > latest {
            latest := appliedTs;
          }
        }
      }
      assert deltas[..|deltas|] == deltas;
    }

    /** The first half of `syncSavingsGoalsInternal`: the server's goals, when there are any, are merged in. */
    method MergeRemoteGoals(remoteGoals: seq<SavingsGoalDtos.SavingsGoalDTO>) returns (applied: nat)
      requires Valid()
      modifies settings, settings.Mirror()
      ensures Valid()
      ensures settings.prefs == old(settings.prefs).(savingsGoals := MergedGoalsText(old(settings.prefs.savingsGoals), Domain(remoteGoals)))
      ensures applied == MergedCount(old(settings.prefs.savingsGoals), Domain(remoteGoals))
    {
      applied := 0;
      var remote := Domain(remoteGoals);
      if remote != [] {
        applied := settings.MergeRemoteSavingsGoals(remote);
      }
    }

    /** The second half of `syncSavingsGoalsInternal`: the pending goals are sent and taken as acknowledged. */
    method PushPendingGoals(now: int) returns (count: nat, pushed: seq<SavingsGoalDtos.SavingsGoalDTO>)
      requires Valid()
      modifies settings, settings.Mirror()
      ensures Valid()
      ensures settings.prefs == old(settings.prefs).(savingsGoals := PushedGoalsText(old(settings.prefs.savingsGoals), now))
      ensures pushed == PushedGoals(PendingGoals(DecodeGoals(old(settings.prefs.savingsGoals))), now)
      ensures count == |pushed|
    {
      var pending := settings.PendingSavingsGoals();
      pushed := PushedGoals(pending, now);
      count := |pending|;
      if pending != [] {
        settings.MarkSavingsGoalsSynced(GoalAcks(pending, now));
      }
    }

    /** `syncSavingsGoalsInternal`: merge the server's goals, then push the pending ones and take them as acknowledged. */
    method SyncSavingsGoalsInternal(remoteGoals: seq<SavingsGoalDtos.SavingsGoalDTO>, now: int)
      returns (total: nat, pushed: seq<SavingsGoalDtos.SavingsGoalDTO>)
      requires Valid()
      modifies settings, settings.Mirror()
      ensures Valid()
      ensures settings.prefs == GoalPhase(old(settings.prefs), Domain(remoteGoals), now)
      ensures pushed == PushedGoals(PendingGoals(DecodeGoals(MergedGoalsText(old(settings.prefs.savingsGoals), Domain(remoteGoals)))), now)
      ensures total == GoalCount(old(settings.prefs), Domain(remoteGoals))
    {
      var applied := MergeRemoteGoals(remoteGoals);
      var count;
      count, pushed := PushPendingGoals(now);
      total := applied + count;
    }

    /** The start of a pull: bootstrap, then the settings unless the bootstrap just happened. */
    method BootstrapAndSettings(result: EnsureUserResult, remoteSettings: Option<SettingsDTO>, now: int)
      returns (settingsMerged: nat)
      requires Valid()
      modifies dao, settings, settings.Mirror()
      ensures Valid()
      ensures dao.rows == BootRows(old(dao.rows), result.bootstrapped, now)
      ensures var prefs0 := BootPrefs(old(settings.prefs), settings.env, result.bootstrapped, now);
              settings.prefs == SettingsPhase(prefs0, settings.env, result.bootstrapped, remoteSettings)
              && settingsMerged == if AppliesSettings(prefs0, settings.env, result.bootstrapped, remoteSettings) then 1 else 0
    {
      var bootstrapped := HandleBootstrap(result, now);
      settingsMerged := 0;
      if !bootstrapped {
        settingsMerged := SyncSettings(remoteSettings);
      }
    }

    /** The delta phase of a pull: the deltas from the checkpoint, then the checkpoint moved forward. */
    method PullDeltas(deltas: seq<TransactionDTO>, now: int) returns (merged: nat)
      requires Valid()
      modifies dao, settings
      ensures Valid()
      ensures var since := old(settings.prefs).lastDeltaSyncAt.GetOr(0);
              var outcome := DeltaMerge(old(dao.rows), deltas, since, now);
              dao.rows == outcome.rows && merged == outcome.merged
              && settings.prefs == Checkpointed(old(settings.prefs), since, outcome.latest)
    {
      var since := settings.LastDeltaSyncAt();
      merged := 0;
      var latest := since;
      if deltas != [] {
        merged, latest := ApplyDeltas(deltas, since, now);
      }
      if latest > since {
        settings.SetLastDeltaSyncAt(latest);
      }
    }

    /**
     * `pullAndMerge`: with no server document nothing happens; otherwise
     * bootstrap, settings (skipped right after a bootstrap), transaction
     * deltas from the checkpoint, and goals, in that order.
     */
    method PullAndMerge(ensure: Option<EnsureUserResult>, remoteSettings: Option<SettingsDTO>,
                        deltas: seq<TransactionDTO>, remoteGoals: seq<SavingsGoalDtos.SavingsGoalDTO>, now: int)
      returns (count: nat)
      requires Valid()
      modifies dao, settings, settings.Mirror()
      ensures Valid()
      ensures ensure.None? ==> count == 0 && dao.rows == old(dao.rows) && settings.prefs == old(settings.prefs)
      ensures ensure.None? && settings.dao.Some? ==> unchanged(settings.dao.value)
      ensures ensure.Some? ==>
                var boot := ensure.value.bootstrapped;
                var outcome := DeltaMerge(BootRows(old(dao.rows), boot, now), deltas,
                                          PullSince(old(settings.prefs), settings.env, boot, now), now);
                dao.rows == outcome.rows
                && settings.prefs == PulledPrefs(old(settings.prefs), settings.env, boot, remoteSettings,
                                                 outcome.latest, Domain(remoteGoals), now)
      ensures ensure.Some? ==>
                var boot := ensure.value.bootstrapped;
                var prefs0 := BootPrefs(old(settings.prefs), settings.env, boot, now);
                var settled := SettingsPhase(prefs0, settings.env, boot, remoteSettings);
                var outcome := DeltaMerge(BootRows(old(dao.rows), boot, now), deltas,
                                          PullSince(old(settings.prefs), settings.env, boot, now), now);
                count == (if AppliesSettings(prefs0, settings.env, boot, remoteSettings) then 1 else 0)
                         + outcome.merged
                         + GoalCount(Checkpointed(settled, settled.lastDeltaSyncAt.GetOr(0), outcome.latest),
                                     Domain(remoteGoals))
    {
      if ensure.None? {
        return 0;
      }
      var settingsMerged := BootstrapAndSettings(ensure.value, remoteSettings, now);
      var merged := PullDeltas(deltas, now);
      var goalsMerged, _ := SyncSavingsGoalsInternal(remoteGoals, now);
      count := settingsMerged + merged + goalsMerged;
    }

    /** The row half of a push: the batch is sent, and a positive answer marks it synced and becomes the checkpoint. */
    method PushRows(dirty: seq<Transaction>, ack: int) returns (batch: seq<TransactionDTO>, count: nat)
      requires Valid()
      modifies dao, settings
      ensures Valid()
      ensures batch == BatchDtos(dirty)
      ensures var synced := |dirty| > 0 && ack > 0;
              dao.rows == (if synced then SyncedRows(old(dao.rows), DtoIds(batch), ack) else old(dao.rows))
              && settings.prefs == (if synced then old(settings.prefs).(lastDeltaSyncAt := Some(ack)) else old(settings.prefs))
              && count == if synced then |dirty| else 0
    {
      batch := BatchDtos(dirty);
      count := 0;
      if dirty != [] && ack > 0 {
        dao.MarkSynced(DtoIds(batch), ack);
        settings.SetLastDeltaSyncAt(ack);
        count := |dirty|;
      }
    }

    /**
     * `pushDirtyBatch`: sends up to `limit` dirty rows, the settings when
     * dirty and the pending goals. `ack` is the server's answer to the row
     * push; only a positive one marks the rows synced and moves the
     * checkpoint.
     */
    method PushDirtyBatch(ensure: Option<EnsureUserResult>, limit: int, ack: int, now: int)
      returns (pushed: nat, batch: seq<TransactionDTO>, sentSettings: Option<SettingsDTO>)
      requires Valid()
      modifies dao, settings, settings.Mirror()
      ensures Valid()
      ensures ensure.None? ==> pushed == 0 && batch == [] && dao.rows == old(dao.rows) && settings.prefs == old(settings.prefs)
      ensures ensure.None? && settings.dao.Some? ==> unchanged(settings.dao.value)
      ensures ensure.Some? ==>
                var rows0 := BootRows(old(dao.rows), ensure.value.bootstrapped, now);
                forall d :: d in batch ==> d.id in rows0 && rows0[d.id].dirty && TransactionToDto(rows0[d.id]) == d
      ensures limit >= 0 ==> |batch| <= limit
      ensures ensure.Some? ==>
                var rows0 := BootRows(old(dao.rows), ensure.value.bootstrapped, now);
                && |batch| == Cap(limit, |DirtyIds(rows0)|)
                && (limit < 0 || |batch| < limit ==>
                      forall id :: id in DirtyIds(rows0) ==> TransactionToDto(rows0[id]) in batch)
      ensures ensure.Some? ==>
                var rows0 := BootRows(old(dao.rows), ensure.value.bootstrapped, now);
                dao.rows == if |batch| > 0 && ack > 0 then SyncedRows(rows0, DtoIds(batch), ack) else rows0
      ensures ensure.Some? ==>
                var prefs0 := BootPrefs(old(settings.prefs), settings.env, ensure.value.bootstrapped, now);
                var snapshot := SnapshotOf(prefs0, settings.env);
                settings.prefs == PushPrefs(prefs0, settings.env, |batch| > 0 && ack > 0, ack, now)
                && sentSettings == (if snapshot.dirty then Some(SettingsToDto(snapshot)) else None)
                && pushed == (if |batch| > 0 && ack > 0 then |batch| else 0) + (if snapshot.dirty then 1 else 0)
    {
      if ensure.None? {
        return 0, [], None;
      }
      pushed, batch, sentSettings := PushBatch(ensure.value, limit, ack, now);
    }

    /** `pushDirtyBatch` once the server document exists. */
    method PushBatch(result: EnsureUserResult, limit: int, ack: int, now: int)
      returns (pushed: nat, batch: seq<TransactionDTO>, sentSettings: Option<SettingsDTO>)
      requires Valid()
      modifies dao, settings, settings.Mirror()
      ensures Valid()
      ensures var rows0 := BootRows(old(dao.rows), result.bootstrapped, now);
              forall d :: d in batch ==> d.id in rows0 && rows0[d.id].dirty && TransactionToDto(rows0[d.id]) == d
      ensures var rows0 := BootRows(old(dao.rows), result.bootstrapped, now);
              && |batch| == Cap(limit, |DirtyIds(rows0)|)
              && (limit < 0 || |batch| < limit ==>
                    forall id :: id in DirtyIds(rows0) ==> TransactionToDto(rows0[id]) in batch)
      ensures var rows0 := BootRows(old(dao.rows), result.bootstrapped, now);
              dao.rows == if |batch| > 0 && ack > 0 then SyncedRows(rows0, DtoIds(batch), ack) else rows0
      ensures var prefs0 := BootPrefs(old(settings.prefs), settings.env, result.bootstrapped, now);
              var snapshot := SnapshotOf(prefs0, settings.env);
              settings.prefs == PushPrefs(prefs0, settings.env, |batch| > 0 && ack > 0, ack, now)
              && sentSettings == (if snapshot.dirty then Some(SettingsToDto(snapshot)) else None)
              && pushed == (if |batch| > 0 && ack > 0 then |batch| else 0) + (if snapshot.dirty then 1 else 0)
    {
      var bootstrapped := HandleBootstrap(result, now);
      pushed, batch, sentSettings := PushAll(bootstrapped, limit, ack, now);
    }

    /** The push proper, from the state the bootstrap left; `bootstrapped` alone forces a push. */
    method PushAll(bootstrapped: bool, limit: int, ack: int, now: int)
      returns (pushed: nat, batch: seq<TransactionDTO>, sentSettings: Option<SettingsDTO>)
      requires Valid()
      modifies dao, settings, settings.Mirror()
      ensures Valid()
      ensures forall d :: d in batch ==>
                d.id in old(dao.rows) && old(dao.rows)[d.id].dirty && TransactionToDto(old(dao.rows)[d.id]) == d
      ensures |batch| == Cap(limit, |DirtyIds(old(dao.rows))|)
      ensures limit < 0 || |batch| < limit ==>
                forall id :: id in DirtyIds(old(dao.rows)) ==> TransactionToDto(old(dao.rows)[id]) in batch
      ensures dao.rows == if |batch| > 0 && ack > 0 then SyncedRows(old(dao.rows), DtoIds(batch), ack) else old(dao.rows)
      ensures var snapshot := SnapshotOf(old(settings.prefs), settings.env);
              settings.prefs == PushPrefs(old(settings.prefs), settings.env, |batch| > 0 && ack > 0, ack, now)
              && sentSettings == (if snapshot.dirty then Some(SettingsToDto(snapshot)) else None)
              && pushed == (if |batch| > 0 && ack > 0 then |batch| else 0) + (if snapshot.dirty then 1 else 0)
    {
      var dirty := dao.Dirty(limit);
      assert dao.Matching(IsDirty) == DirtyIds(dao.rows);
      DirtyBatch(dao.rows, limit, dirty);
      var hasSavingsChanges := settings.PendingSavingsGoals() != [];
      var snapshot := settings.Snapshot();
      var settingsDirty := snapshot.dirty;
      if !bootstrapped && dirty == [] && !hasSavingsChanges && !settingsDirty {
        NothingToPush(settings.prefs, settings.env, ack, now);
        return 0, [], None;
      }
      var rowCount, settingsCount;
      batch, rowCount := PushRows(dirty, ack);
      sentSettings, settingsCount := PushSettingsAndGoals(snapshot, hasSavingsChanges, now);
      pushed := rowCount + settingsCount;
    }

    /** The rest of a push: the settings when dirty, then the pending goals. */
    method PushSettingsAndGoals(snapshot: SettingsSnapshot, hasSavingsChanges: bool, now: int)
      returns (sentSettings: Option<SettingsDTO>, count: nat)
      requires Valid()
      requires hasSavingsChanges <==> PendingGoals(DecodeGoals(settings.prefs.savingsGoals)) != []
      modifies settings, settings.Mirror()
      ensures Valid()
      ensures settings.prefs == SettingsAndGoalsPushed(old(settings.prefs), snapshot, now)
      ensures sentSettings == (if snapshot.dirty then Some(SettingsToDto(snapshot)) else None)
      ensures count == if snapshot.dirty then 1 else 0
    {
      ghost var before := settings.prefs;
      sentSettings := None;
      count := 0;
      if snapshot.dirty {
        sentSettings := Some(SettingsToDto(snapshot));
        settings.MarkSettingsSynced(snapshot.updatedAt);
        count := 1;
      }
      assert settings.prefs.savingsGoals == before.savingsGoals;
      if hasSavingsChanges {
        // `syncSavingsGoalsInternal(fetchRemote = false)`: nothing is fetched, so only the push half runs.
        var _, _ := PushPendingGoals(now);
      }
    }

    /** `syncSavingsGoals`: with no server document nothing happens. */
    method SyncSavingsGoals(ensure: Option<EnsureUserResult>, remoteGoals: seq<SavingsGoalDtos.SavingsGoalDTO>, now: int)
      returns (count: nat)
      requires Valid()
      modifies dao, settings, settings.Mirror()
      ensures Valid()
      ensures ensure.None? ==> count == 0 && dao.rows == old(dao.rows) && settings.prefs == old(settings.prefs)
      ensures ensure.Some? ==>
                var prefs0 := BootPrefs(old(settings.prefs), settings.env, ensure.value.bootstrapped, now);
                dao.rows == BootRows(old(dao.rows), ensure.value.bootstrapped, now)
                && settings.prefs == GoalPhase(prefs0, Domain(remoteGoals), now)
                && count == GoalCount(prefs0, Domain(remoteGoals))
    {
      if ensure.None? {
        return 0;
      }
      var _ := HandleBootstrap(ensure.value, now);
      var pushed;
      count, pushed := SyncSavingsGoalsInternal(remoteGoals, now);
    }

    /** `fetchOlderTransactions`: the server's rows, clean; nothing when there is no server document. */
    method FetchOlderTransactions(ensure: Option<EnsureUserResult>, dtos: seq<TransactionDTO>, now: int)
      returns (r: seq<Transaction>)
      requires Valid()
      modifies dao, settings, settings.Mirror()
      ensures Valid()
      ensures ensure.None? ==> r == [] && dao.rows == old(dao.rows) && settings.prefs == old(settings.prefs)
      ensures ensure.Some? ==> dao.rows == BootRows(old(dao.rows), ensure.value.bootstrapped, now)
      ensures ensure.Some? ==> settings.prefs == BootPrefs(old(settings.prefs), settings.env, ensure.value.bootstrapped, now)
      ensures ensure.Some? ==> |r| == |dtos|
      ensures ensure.Some? ==> forall i :: 0 <= i < |r| ==>
                !r[i].dirty && r[i].pendingOp.None? && TransactionToDto(r[i]) == dtos[i]
    {
      if ensure.None? {
        return [];
      }
      var _ := HandleBootstrap(ensure.value, now);
      r := seq(|dtos|, i requires 0 <= i < |dtos| => ToEntity(dtos[i], now));
    }
  }
}
