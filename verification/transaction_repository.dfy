/**
 * The transaction repository: the write path that stamps every local edit
 * for the next push, and the read path that hides savings-only rows from
 * the recent list.
 */
module TransactionRepositories {
  import opened Wrappers
  import opened Text
  import opened Ordering
  import opened TransactionModel
  import opened TransactionStore

  /**
   * The operation a saved row is offered with: a pending DELETE or INSERT
   * is kept, a row the server has never stamped is an INSERT, anything
   * else an UPDATE.
   */
  function SaveOp(tx: Transaction): (r: string)
    ensures tx.pendingOp == Some(OP_DELETE) <==> r == OP_DELETE
    ensures r == OP_UPDATE <==>
              tx.pendingOp != Some(OP_DELETE) && tx.pendingOp != Some(OP_INSERT) && tx.updatedAtServer.Some?
    ensures r == OP_DELETE || r == OP_INSERT || r == OP_UPDATE
  {
    if tx.pendingOp == Some(OP_DELETE) then OP_DELETE
    else if tx.pendingOp == Some(OP_INSERT) then OP_INSERT
    else if tx.updatedAtServer.None? then OP_INSERT
    else OP_UPDATE
  }

  /**
   * The row `addOrUpdate` writes: dirty, stamped with `now`, with a blank
   * goal reference dropped (and its impact zeroed) and the payload kept.
   */
  function Normalize(tx: Transaction, now: int): (r: Transaction)
    ensures r.dirty && r.updatedAtLocal == now && r.pendingOp == Some(SaveOp(tx))
    ensures r.savingsGoalId.None? <==> tx.savingsGoalId.None? || IsBlank(tx.savingsGoalId.value)
    ensures r.savingsGoalId.Some? ==> r.savingsGoalId == tx.savingsGoalId && r.savingsImpact == tx.savingsImpact
    ensures r.savingsGoalId.None? ==> r.savingsImpact == 0
    // every other field, from `id` and `uid` to `planned` and `txType`, is kept
    ensures r == tx.(dirty := r.dirty, pendingOp := r.pendingOp, updatedAtLocal := r.updatedAtLocal,
                     savingsGoalId := r.savingsGoalId, savingsImpact := r.savingsImpact)
  {
    var goalId := if tx.savingsGoalId.Some? && !IsBlank(tx.savingsGoalId.value) then tx.savingsGoalId else None;
    var impact := if goalId.None? then 0 else tx.savingsImpact;
    tx.(dirty := true, pendingOp := Some(SaveOp(tx)), updatedAtLocal := now,
        savingsGoalId := goalId, savingsImpact := impact)
  }

  /** Saving a saved row again changes nothing but its local time. */
  lemma NormalizeTwice(tx: Transaction, first: int, second: int)
    ensures Normalize(Normalize(tx, first), second) == Normalize(tx, second)
  {
  }

  /** A row that only moves money into or out of a goal carries no amount of its own. */
  predicate SavingsOnly(t: Transaction) {
    t.amount == 0 && t.savingsGoalId.Some?
  }

  /** `filterNot` of the savings-only rows, keeping the order of the rest. */
  function Shown(s: seq<Transaction>): (r: seq<Transaction>)
    ensures forall t :: t in r <==> t in s && !SavingsOnly(t)
    ensures |r| <= |s|
  {
    if s == [] then []
    else (if SavingsOnly(s[0]) then [] else [s[0]]) + Shown(s[1..])
  }

  /** Dropping rows keeps the rest in the order the table returned them. */
  lemma {:induction false} ShownKeepsOrder(s: seq<Transaction>)
    requires SortedBy(s, RecentFirst)
    ensures SortedBy(Shown(s), RecentFirst)
  {
    if s != [] {
      var rest := Shown(s[1..]);
      ShownKeepsOrder(s[1..]);
      forall j | 0 <= j < |rest|
        ensures LexLe(RecentFirst(s[0]), RecentFirst(rest[j]))
      {
        assert rest[j] in s[1..];
        var k :| 0 <= k < |s[1..]| && s[1..][k] == rest[j];
        assert s[k + 1] == rest[j];
      }
    }
  }

  class TransactionRepository {
    const dao: TransactionDao

    constructor (dao: TransactionDao)
      ensures this.dao == dao
    {
      this.dao := dao;
    }

    /** `addOrUpdate`: stores the normalized row under its key. */
    method AddOrUpdate(tx: Transaction, now: int)
      requires dao.Valid()
      modifies dao
      ensures dao.Valid()
      ensures dao.rows == old(dao.rows)[tx.id := Normalize(tx, now)]
    {
      dao.Upsert(Normalize(tx, now));
    }

    /** `delete`: a soft delete, left for the next push. */
    method Delete(id: string, now: int)
      requires dao.Valid()
      modifies dao
      ensures dao.Valid()
      ensures dao.rows.Keys == old(dao.rows).Keys
      ensures id in dao.rows ==> dao.rows[id] == Tombstone(old(dao.rows)[id], now)
      ensures forall other :: other in dao.rows && other != id ==> dao.rows[other] == old(dao.rows)[other]
    {
      dao.MarkDeleted(id, now);
    }

    /** `markSynced`: an empty id list returns before reaching the table. */
    method MarkSynced(ids: seq<string>, updatedAt: int)
      requires dao.Valid()
      modifies dao
      ensures dao.Valid()
      ensures ids == [] ==> dao.rows == old(dao.rows)
      ensures dao.rows.Keys == old(dao.rows).Keys
      ensures forall id :: id in dao.rows && id in ids ==> dao.rows[id] == Synced(old(dao.rows)[id], updatedAt)
      ensures forall id :: id in dao.rows && id !in ids ==> dao.rows[id] == old(dao.rows)[id]
    {
      if ids == [] {
        return;
      }
      dao.MarkSynced(ids, updatedAt);
    }

    /**
     * `listRecent`: the rows the table's `listRecent(limit)` returns
     * (`fetched`), without the savings-only ones, still most recent first.
     */
    method ListRecent(limit: int) returns (fetched: seq<Transaction>, r: seq<Transaction>)
      requires dao.Valid()
      ensures forall t :: t in fetched ==> t in dao.rows.Values && !t.deleted
      ensures |fetched| == Cap(limit, |dao.Matching(Live)|)
      ensures forall t, u :: t in dao.rows.Values && !t.deleted && t !in fetched && u in fetched ==>
                LexLe(RecentFirst(u), RecentFirst(t))
      ensures forall t :: t in r <==> t in fetched && !SavingsOnly(t)
      ensures r == Shown(fetched)
      ensures SortedBy(r, RecentFirst)
    {
      fetched := dao.ListRecent(limit);
      ShownKeepsOrder(fetched);
      r := Shown(fetched);
    }
  }
}
