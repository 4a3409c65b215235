/** The `transactions` row with its sync envelope, the `TxType` enum and its Room converters. */
module TransactionModel {
  import opened Wrappers

  datatype TxType = EXPENSE | INCOME

  /** The pending operations a row can carry; `None` means fully synced. */
  const OP_INSERT: string := "INSERT"
  const OP_UPDATE: string := "UPDATE"
  const OP_DELETE: string := "DELETE"

  /**
   * One transaction. Amounts are whole money units; timestamps are
   * milliseconds. `dirty`, `pendingOp`, `updatedAtLocal`, `updatedAtServer`
   * and `deleted` form the sync envelope.
   */
  datatype Transaction = Transaction(
    id: string,
    uid: string,
    amount: int,
    currency: string,
    dateUtcMillis: int,
    monthKey: string,
    category: string,
    note: Option<string>,
    planned: bool,
    deleted: bool,
    dirty: bool,
    pendingOp: Option<string>,
    updatedAtLocal: int,
    updatedAtServer: Option<int>,
    txType: TxType,
    savingsGoalId: Option<string>,
    savingsImpact: int)

  /** The data-class constructor called with only its required arguments. */
  function NewTransaction(id: string, uid: string, amount: int, currency: string, dateUtcMillis: int,
                          monthKey: string, category: string, now: int): (t: Transaction)
    ensures t.id == id && t.amount == amount && t.dateUtcMillis == dateUtcMillis && t.monthKey == monthKey
    ensures t.dirty && t.pendingOp == Some(OP_INSERT) && t.updatedAtLocal == now
    ensures t.updatedAtServer == None
    ensures t.savingsGoalId == None && t.savingsImpact == 0
    ensures !t.deleted && !t.planned && t.note == None
    ensures t.txType == EXPENSE
  {
    Transaction(id, uid, amount, currency, dateUtcMillis, monthKey, category, None, false, false,
                true, Some(OP_INSERT), now, None, EXPENSE, None, 0)
  }

  /**
   * The operation a row is re-offered with when everything is marked dirty
   * for a bootstrap: a pending DELETE or INSERT is kept, a tombstone becomes
   * DELETE and everything else UPDATE.
   */
  function BootstrapOp(pendingOp: Option<string>, deleted: bool): (r: string)
    ensures pendingOp == Some(OP_DELETE) || pendingOp == Some(OP_INSERT) ==> Some(r) == pendingOp
    ensures pendingOp != Some(OP_DELETE) && pendingOp != Some(OP_INSERT) ==>
              r == (if deleted then OP_DELETE else OP_UPDATE)
    ensures deleted ==> r == OP_DELETE || r == OP_INSERT
  {
    if pendingOp == Some(OP_DELETE) then OP_DELETE
    else if pendingOp == Some(OP_INSERT) then OP_INSERT
    else if deleted then OP_DELETE
    else OP_UPDATE
  }

  /** The enum constant's name. */
  function TxTypeName(t: TxType): string {
    match t
    case EXPENSE => "EXPENSE"
    case INCOME => "INCOME"
  }

  /** `Converters.fromTxType`: null stays null, otherwise the enum name. */
  function FromTxType(value: Option<TxType>): (r: Option<string>)
    ensures value.None? <==> r.None?
    ensures r.Some? ==> r.value == "EXPENSE" || r.value == "INCOME"
  {
    match value
    case None => None
    case Some(t) => Some(TxTypeName(t))
  }

  /** `Converters.toTxType`: `TxType.valueOf` throws on a name that is not an enum constant. */
  function ToTxType(value: Option<string>): (r: Result<Option<TxType>>)
    ensures value.None? ==> r == Success(None)
    ensures value.Some? ==> (r.Success? <==> value.value == "EXPENSE" || value.value == "INCOME")
    ensures r.Success? && value.Some? ==> r.value.Some?
  {
    match value
    case None => Success(None)
    case Some(s) =>
      if s == "EXPENSE" then Success(Some(EXPENSE))
      else if s == "INCOME" then Success(Some(INCOME))
      else Failure("No enum constant TxType." + s)
  }

  /** Storing a type and reading it back gives the same type. */
  lemma ConvertersRoundTrip(t: Option<TxType>)
    ensures ToTxType(FromTxType(t)) == Success(t)
  {
  }

  /** Reading a stored name and storing it again gives the same text. */
  lemma ConvertersRoundTripText(s: Option<string>)
    requires ToTxType(s).Success?
    ensures FromTxType(ToTxType(s).value) == s
  {
  }
}
