/**
 * The `transactions` table and the queries of its Room DAO. The table is a
 * map from primary key to row; every statement that changes rows is a
 * method that reassigns that map, every query a method that reads it.
 */
module TransactionStore {
  import opened Wrappers
  import opened Ordering
  import opened TransactionModel

  /** The row `markDeleted` leaves behind: a dirty tombstone waiting to be pushed. */
  function Tombstone(t: Transaction, now: int): (r: Transaction)
    ensures r.deleted && r.dirty && r.pendingOp == Some(OP_DELETE) && r.updatedAtLocal == now
    ensures r.id == t.id && r.amount == t.amount && r.dateUtcMillis == t.dateUtcMillis
    ensures r.updatedAtServer == t.updatedAtServer
  {
    t.(deleted := true, dirty := true, pendingOp := Some(OP_DELETE), updatedAtLocal := now)
  }

  /** The row `markAllDirty` leaves behind: dirty again, offered with its bootstrap operation. */
  function Reflagged(t: Transaction, now: int): (r: Transaction)
    ensures r.dirty && r.pendingOp.Some? && r.updatedAtLocal == now
    ensures r.pendingOp.value == BootstrapOp(t.pendingOp, t.deleted)
    ensures r.id == t.id && r.deleted == t.deleted && r.updatedAtServer == t.updatedAtServer
  {
    t.(dirty := true, pendingOp := Some(BootstrapOp(t.pendingOp, t.deleted)), updatedAtLocal := now)
  }

  /** The row `markSynced` leaves behind: clean, stamped with the server time. */
  function Synced(t: Transaction, at: int): (r: Transaction)
    ensures !r.dirty && r.pendingOp.None? && r.updatedAtServer == Some(at)
    ensures r.id == t.id && r.deleted == t.deleted && r.updatedAtLocal == t.updatedAtLocal
  {
    t.(dirty := false, pendingOp := None, updatedAtServer := Some(at))
  }

  /** The rows `purgeDeleted` removes. */
  predicate Purgeable(t: Transaction, olderThan: int) {
    t.deleted && t.dateUtcMillis < olderThan
  }

  /** Marking everything dirty twice is marking it once, at the later time. */
  lemma ReflaggedTwice(t: Transaction, first: int, second: int)
    ensures Reflagged(Reflagged(t, first), second) == Reflagged(t, second)
  {
  }

  /**
   * A row the server has acknowledged is re-offered after a bootstrap as an
   * UPDATE, or a DELETE when it is a tombstone; never as an INSERT.
   */
  lemma ReflaggedAfterSync(t: Transaction, at: int, now: int)
    ensures Reflagged(Synced(t, at), now).pendingOp == Some(if t.deleted then OP_DELETE else OP_UPDATE)
  {
  }

  /** Deleting an already deleted row only refreshes its local time. */
  lemma TombstoneTwice(t: Transaction, first: int, second: int)
    ensures Tombstone(Tombstone(t, first), second) == Tombstone(t, second)
  {
  }

  /** Sort keys of the `ORDER BY` clauses. */
  function DateDesc(t: Transaction): seq<int> { [-t.dateUtcMillis] }
  function DateAsc(t: Transaction): seq<int> { [t.dateUtcMillis] }
  function RecentFirst(t: Transaction): seq<int> { [-t.updatedAtLocal, -t.dateUtcMillis] }

  /** `WHERE` clauses. */
  predicate Live(t: Transaction) { !t.deleted }
  predicate IsDirty(t: Transaction) { t.dirty }
  function InMonth(month: string): Transaction -> bool {
    (t: Transaction) => !t.deleted && t.monthKey == month
  }
  function After(fromMillis: int): Transaction -> bool {
    (t: Transaction) => !t.deleted && t.dateUtcMillis > fromMillis
  }
  function Between(startMillis: int, endMillis: int): Transaction -> bool {
    (t: Transaction) => !t.deleted && startMillis <= t.dateUtcMillis <= endMillis
  }
  function MonthBefore(exclusiveUpper: string): Transaction -> bool {
    (t: Transaction) => !t.deleted && TextLess(t.monthKey, exclusiveUpper)
  }

  /** How many rows `LIMIT limit` lets through out of `n`; a negative limit means no limit. */
  function Cap(limit: int, n: nat): nat {
    if 0 <= limit < n then limit else n
  }

  /** `LIMIT limit` applied to an ordered result. */
  function Limited(s: seq<Transaction>, limit: int): (r: seq<Transaction>)
    ensures |r| == Cap(limit, |s|)
    ensures r == s[..|r|]
  {
    if 0 <= limit < |s| then s[..limit] else s
  }

  predicate DistinctIds(s: seq<Transaction>) {
    forall i, j :: 0 <= i < j < |s| ==> s[i].id != s[j].id
  }

  class TransactionDao {
    var rows: map<string, Transaction>

    /** Every row is stored under its own primary key. */
    ghost predicate Valid()
      reads this
    {
      forall id :: id in rows ==> rows[id].id == id
    }

    /** The keys of the rows a `WHERE` clause selects. */
    ghost function Matching(p: Transaction -> bool): set<string>
      reads this
    {
      set id | id in rows && p(rows[id])
    }

    constructor ()
      ensures Valid() && rows == map[]
    {
      rows := map[];
    }

    /** `upsert`: inserts the row or replaces the row with the same key. */
    method Upsert(tx: Transaction)
      requires Valid()
      modifies this
      ensures Valid()
      ensures rows == old(rows)[tx.id := tx]
    {
      rows := rows[tx.id := tx];
    }

    /** `markDeleted`: turns the row into a dirty tombstone; an unknown key changes nothing. */
    method MarkDeleted(id: string, now: int)
      requires Valid()
      modifies this
      ensures Valid()
      ensures rows.Keys == old(rows).Keys
      ensures id in rows ==> rows[id] == Tombstone(old(rows)[id], now)
      ensures forall other :: other in rows && other != id ==> rows[other] == old(rows)[other]
    {
      if id in rows {
        rows := rows[id := Tombstone(rows[id], now)];
      }
    }

    /** `getById`. */
    method GetById(id: string) returns (r: Option<Transaction>)
      requires Valid()
      ensures r.Some? <==> id in rows
      ensures r.Some? ==> r.value == rows[id] && r.value.id == id
    {
      r := if id in rows then Some(rows[id]) else None;
    }

    /** The rows a `WHERE` clause selects, each once, in no particular order. */
    method Select(p: Transaction -> bool) returns (r: seq<Transaction>)
      requires Valid()
      ensures forall t :: t in r <==> t in rows.Values && p(t)
      ensures |r| == |Matching(p)|
      ensures DistinctIds(r)
    {
      r := [];
      var todo := rows.Keys;
      ghost var picked: set<string> := {};
      while todo != {}
        invariant todo <= rows.Keys
        invariant forall id :: id in picked <==> id in rows && id !in todo && p(rows[id])
        invariant |r| == |picked|
        invariant forall t :: t in r ==> t in rows.Values && p(t) && t.id in picked
        invariant forall id :: id in picked ==> rows[id] in r
        invariant DistinctIds(r)
        decreases |todo|
      {
        var id :| id in todo;
        if p(rows[id]) {
          r := r + [rows[id]];
          picked := picked + {id};
        }
        todo := todo - {id};
      }
      forall t | t in rows.Values && p(t)
        ensures t in r
      {
        var id :| id in rows && rows[id] == t;
        assert id in picked;
      }
      assert picked == Matching(p);
    }

    /** `listMonth`: the month's live rows, newest first. */
    method ListMonth(month: string) returns (r: seq<Transaction>)
      requires Valid()
      ensures forall t :: t in r <==> t in rows.Values && !t.deleted && t.monthKey == month
      ensures |r| == |Matching(InMonth(month))|
      ensures SortedBy(r, DateDesc)
    {
      var all := Select(InMonth(month));
      SortByMembers(all, DateDesc);
      r := SortBy(all, DateDesc);
    }

    /** `listFuture`: live rows dated after `fromMillis`, earliest first. */
    method ListFuture(fromMillis: int) returns (r: seq<Transaction>)
      requires Valid()
      ensures forall t :: t in r <==> t in rows.Values && !t.deleted && t.dateUtcMillis > fromMillis
      ensures |r| == |Matching(After(fromMillis))|
      ensures SortedBy(r, DateAsc)
    {
      var all := Select(After(fromMillis));
      SortByMembers(all, DateAsc);
      r := SortBy(all, DateAsc);
    }

    /** `transactionsBetween`: live rows dated within both bounds inclusive, earliest first. */
    method TransactionsBetween(startMillis: int, endMillis: int) returns (r: seq<Transaction>)
      requires Valid()
      ensures forall t :: t in r <==> t in rows.Values && !t.deleted && startMillis <= t.dateUtcMillis <= endMillis
      ensures |r| == |Matching(Between(startMillis, endMillis))|
      ensures SortedBy(r, DateAsc)
    {
      var all := Select(Between(startMillis, endMillis));
      SortByMembers(all, DateAsc);
      r := SortBy(all, DateAsc);
    }

    /**
     * `listRecent`: the `limit` live rows touched most recently (ties broken
     * by the later date); no live row left out ranks before one returned.
     */
    method ListRecent(limit: int) returns (r: seq<Transaction>)
      requires Valid()
      ensures forall t :: t in r ==> t in rows.Values && !t.deleted
      ensures |r| == Cap(limit, |Matching(Live)|)
      ensures SortedBy(r, RecentFirst)
      ensures forall t, u :: t in rows.Values && !t.deleted && t !in r && u in r ==>
                LexLe(RecentFirst(u), RecentFirst(t))
    {
      var all := Select(Live);
      r := TopBy(all, RecentFirst, limit);
    }

    /**
     * `listOlderThan`: the `limit` newest live rows of months before
     * `exclusiveUpper` (text order); no such row left out is newer than one returned.
     */
    method ListOlderThan(exclusiveUpper: string, limit: int) returns (r: seq<Transaction>)
      requires Valid()
      ensures forall t :: t in r ==> t in rows.Values && !t.deleted && TextLess(t.monthKey, exclusiveUpper)
      ensures |r| == Cap(limit, |Matching(MonthBefore(exclusiveUpper))|)
      ensures SortedBy(r, DateDesc)
      ensures forall t, u :: t in rows.Values && MonthBefore(exclusiveUpper)(t) && t !in r && u in r ==>
                LexLe(DateDesc(u), DateDesc(t))
    {
      var all := Select(MonthBefore(exclusiveUpper));
      r := TopBy(all, DateDesc, limit);
    }

    /**
     * `dirty`: up to `limit` rows waiting to be pushed, each once; when the
     * limit does not cut the result short, every dirty row is in it.
     */
    method Dirty(limit: int) returns (r: seq<Transaction>)
      requires Valid()
      ensures forall t :: t in r ==> t.dirty && t.id in rows && rows[t.id] == t
      ensures DistinctIds(r)
      ensures |r| == Cap(limit, |Matching(IsDirty)|)
      ensures limit < 0 || |r| < limit ==> forall t :: t in rows.Values && t.dirty ==> t in r
    {
      var all := Select(IsDirty);
      r := Limited(all, limit);
      forall t | t in r
        ensures t.dirty && t.id in rows && rows[t.id] == t
      {
        var k :| 0 <= k < |r| && r[k] == t;
        assert all[k] == t;
        assert t in all;
        assert t in rows.Values && IsDirty(t);
        var id :| id in rows && rows[id] == t;
      }
    }

    /** `markAllDirty`: every row is dirty again, with its bootstrap operation. */
    method MarkAllDirty(now: int)
      requires Valid()
      modifies this
      ensures Valid()
      ensures rows.Keys == old(rows).Keys
      ensures forall id :: id in rows ==> rows[id] == Reflagged(old(rows)[id], now)
    {
      rows := map id | id in rows :: Reflagged(rows[id], now);
    }

    /** `markSynced`: the listed rows become clean with the server time; the others are untouched. */
    method MarkSynced(ids: seq<string>, updatedAt: int)
      requires Valid()
      modifies this
      ensures Valid()
      ensures rows.Keys == old(rows).Keys
      ensures forall id :: id in rows && id in ids ==> rows[id] == Synced(old(rows)[id], updatedAt)
      ensures forall id :: id in rows && id !in ids ==> rows[id] == old(rows)[id]
    {
      rows := map id | id in rows :: if id in ids then Synced(rows[id], updatedAt) else rows[id];
    }

    /** `purgeDeleted`: removes the tombstones dated before `olderThan`; the other rows stay as they were. */
    method PurgeDeleted(olderThan: int)
      requires Valid()
      modifies this
      ensures Valid()
      ensures forall id :: id in rows <==> id in old(rows) && !Purgeable(old(rows)[id], olderThan)
      ensures forall id :: id in rows ==> rows[id] == old(rows)[id]
    {
      rows := map id | id in rows && !Purgeable(rows[id], olderThan) :: rows[id];
    }
  }

  /**
   * `ORDER BY key LIMIT limit`: the first `limit` rows of the sorted input;
   * every row of `all` left out ranks no earlier than every row returned.
   */
  method TopBy(all: seq<Transaction>, key: Transaction -> seq<int>, limit: int) returns (r: seq<Transaction>)
    ensures forall t :: t in r ==> t in all
    ensures |r| == Cap(limit, |all|)
    ensures SortedBy(r, key)
    ensures forall t, u :: t in all && t !in r && u in r ==> LexLe(key(u), key(t))
  {
    SortByMembers(all, key);
    var sorted := SortBy(all, key);
    r := Limited(sorted, limit);
    forall t, u | t in all && t !in r && u in r
      ensures LexLe(key(u), key(t))
    {
      var i :| 0 <= i < |sorted| && sorted[i] == t;
      var j :| 0 <= j < |r| && r[j] == u;
      assert sorted[j] == u;
      assert forall k :: 0 <= k < |r| ==> sorted[k] == r[k];
    }
  }
}
