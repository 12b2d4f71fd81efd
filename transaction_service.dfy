/** The transaction handlers (backend/controllers/transactionController.js).
    The database is a map from transaction id to record and the upload
    directory is the set of receipt paths present on disk. Amounts are exact
    reals. The caller's id is `req.user?.id`: `None` or empty means no user. */
module TransactionService {
  import opened Common
  import opened Json
  import opened Sorting

  datatype TxType = Debit | Credit

  /** `["debit", "credit"].includes(type)`, with the value it stands for. */
  function ParseType(s: string): (r: Option<TxType>)
    ensures r.Some? <==> s == "debit" || s == "credit"
  {
    if s == "debit" then Some(Debit) else if s == "credit" then Some(Credit) else None
  }

  datatype Receipt = Receipt(id: string, name: string, size: nat, path: string)

  datatype Transaction = Transaction(
    userId: string,
    subject: string,
    merchant: string,
    amount: real,
    txType: TxType,
    date: int,
    category: string,
    description: string,
    receipts: seq<Receipt>)

  /** A file multer has already stored, with the sub-document id the database
      assigns to the receipt made from it. */
  datatype UploadedFile = UploadedFile(originalName: string, size: nat, filename: string, receiptId: string)

  /** The request body, as the multipart form sends it. A text field is
      `None` when absent; `amount` is the number a present, non-empty amount
      text denotes (so a present amount is truthy, even "0"); `date` the time
      it denotes.
      The two removal fields carry whatever JSON value arrived (`JNull` for
      `null`). */
  datatype Body = Body(
    subject: Option<string>,
    merchant: Option<string>,
    amount: Option<real>,
    txType: Option<string>,
    date: Option<int>,
    category: Option<string>,
    description: Option<string>,
    removedReceipts: Option<Json>,
    removeReceipts: Option<Json>)

  /** A handler's reply: the payload, or an HTTP status with its message. */
  datatype Reply<T> = Ok(value: T) | Fail(status: nat, message: string)

  /** The store invariant the handlers keep: required text fields are
      non-empty and the amount is positive. */
  predicate ValidRecord(tx: Transaction)
  {
    tx.subject != "" && tx.merchant != "" && tx.category != "" && tx.amount > 0.0
  }

  // ---------------------------------------------------------------------------
  // ownership

  /** `findOwnedTransaction`: 404 for an unknown id, checked before 403 for a
      record of another user; otherwise the stored record. */
  function FindOwned(records: map<string, Transaction>, id: string, userId: string): (r: Reply<Transaction>)
    ensures r.Ok? <==> id in records && records[id].userId == userId
    ensures r.Ok? ==> r.value == records[id]
    ensures r == Fail(404, "Transaction not found") <==> id !in records
    ensures r == Fail(403, "Unauthorized") <==> id in records && records[id].userId != userId
  {
    if id !in records then Fail(404, "Transaction not found")
    else if records[id].userId != userId then Fail(403, "Unauthorized")
    else Ok(records[id])
  }

  // ---------------------------------------------------------------------------
  // create

  /** The checks of `createTransaction`, first failure wins. */
  function CreateProblem(b: Body): Option<string>
  {
    if !Truthy(b.subject) || !Truthy(b.merchant) || b.amount.None? || !Truthy(b.txType)
       || b.date.None? || !Truthy(b.category)
    then Some("Missing required fields")
    else if b.amount.value <= 0.0 then Some("Amount must be greater than 0")
    else if ParseType(b.txType.value).None? then Some("Invalid transaction type")
    else None
  }

  /** A body passes the create checks exactly when every required field is
      present, the amount is positive and the type is debit or credit; a
      missing field is reported before a bad amount, and a bad amount before a
      bad type. */
  lemma CreateChecksInOrder(b: Body)
    ensures CreateProblem(b).None? <==>
      Truthy(b.subject) && Truthy(b.merchant) && b.amount.Some? && Truthy(b.txType)
      && b.date.Some? && Truthy(b.category) && b.amount.value > 0.0
      && (b.txType.value == "debit" || b.txType.value == "credit")
    ensures (!Truthy(b.subject) || !Truthy(b.merchant) || b.amount.None? || !Truthy(b.txType)
             || b.date.None? || !Truthy(b.category)) ==>
      CreateProblem(b) == Some("Missing required fields")
    ensures CreateProblem(b) == Some("Amount must be greater than 0") ==>
      Truthy(b.subject) && Truthy(b.merchant) && b.amount.Some? && Truthy(b.txType)
      && b.date.Some? && Truthy(b.category) && b.amount.value <= 0.0
    ensures CreateProblem(b) == Some("Invalid transaction type") ==>
      Truthy(b.subject) && Truthy(b.merchant) && b.amount.Some? && Truthy(b.txType)
      && b.date.Some? && Truthy(b.category) && b.amount.value > 0.0
      && b.txType.value != "debit" && b.txType.value != "credit"
  {
  }

  function ReceiptOf(f: UploadedFile): Receipt
  {
    Receipt(f.receiptId, f.originalName, f.size, "uploads/" + f.filename)
  }

  /** One receipt per uploaded file, in upload order, stored under
      `uploads/<filename>`. */
  function ReceiptsOf(files: seq<UploadedFile>): (rs: seq<Receipt>)
    ensures |rs| == |files|
    ensures forall i :: 0 <= i < |files| ==>
      rs[i].id == files[i].receiptId && rs[i].name == files[i].originalName
      && rs[i].size == files[i].size && rs[i].path == "uploads/" + files[i].filename
    decreases |files|
  {
    if files == [] then [] else [ReceiptOf(files[0])] + ReceiptsOf(files[1..])
  }

  /** The record `createTransaction` saves; `description` defaults to "". */
  function NewTransaction(userId: string, b: Body, files: seq<UploadedFile>): (tx: Transaction)
    requires CreateProblem(b).None?
    ensures ValidRecord(tx)
    ensures tx.description == (if Truthy(b.description) then b.description.value else "")
    ensures tx.userId == userId && tx.receipts == ReceiptsOf(files)
  {
    Transaction(userId, b.subject.value, b.merchant.value, b.amount.value,
                ParseType(b.txType.value).value, b.date.value, b.category.value,
                if Truthy(b.description) then b.description.value else "",
                ReceiptsOf(files))
  }

  // ---------------------------------------------------------------------------
  // update: field patch

  /** The checks of `updateTransaction`: only supplied values are checked. */
  function UpdateProblem(b: Body): Option<string>
  {
    if b.amount.Some? && b.amount.value <= 0.0 then Some("Amount must be greater than 0")
    else if Truthy(b.txType) && ParseType(b.txType.value).None? then Some("Invalid transaction type")
    else None
  }

  /** The field assignments of `updateTransaction`: a field changes only when a
      truthy value is supplied, `description` whenever it is supplied at all. */
  function Patch(tx: Transaction, b: Body): Transaction
    requires UpdateProblem(b).None?
  {
    tx.(subject := if Truthy(b.subject) then b.subject.value else tx.subject,
        merchant := if Truthy(b.merchant) then b.merchant.value else tx.merchant,
        amount := if b.amount.Some? then b.amount.value else tx.amount,
        txType := if Truthy(b.txType) then ParseType(b.txType.value).value else tx.txType,
        date := if b.date.Some? then b.date.value else tx.date,
        category := if Truthy(b.category) then b.category.value else tx.category,
        description := if b.description.Some? then b.description.value else tx.description)
  }

  /** The assignments one by one, as the handler makes them. */
  method AssignFields(original: Transaction, b: Body) returns (tx: Transaction)
    requires UpdateProblem(b).None?
    ensures tx == Patch(original, b)
  {
    tx := original;
    if Truthy(b.subject) { tx := tx.(subject := b.subject.value); }
    if Truthy(b.merchant) { tx := tx.(merchant := b.merchant.value); }
    if b.amount.Some? { tx := tx.(amount := b.amount.value); }
    if Truthy(b.txType) { tx := tx.(txType := ParseType(b.txType.value).value); }
    if b.date.Some? { tx := tx.(date := b.date.value); }
    if Truthy(b.category) { tx := tx.(category := b.category.value); }
    if b.description.Some? { tx := tx.(description := b.description.value); }
  }

  const EmptyBody := Body(None, None, None, None, None, None, None, None, None)

  /** Patching leaves the owner and the receipts alone, keeps a valid record
      valid, is idempotent, and an empty body changes nothing. An empty
      `description` clears the description. */
  lemma PatchProperties(tx: Transaction, b: Body)
    requires UpdateProblem(b).None?
    ensures Patch(tx, b).userId == tx.userId && Patch(tx, b).receipts == tx.receipts
    ensures ValidRecord(tx) ==> ValidRecord(Patch(tx, b))
    ensures Patch(Patch(tx, b), b) == Patch(tx, b)
    ensures Patch(tx, EmptyBody) == tx
    ensures b.description == Some("") ==> Patch(tx, b).description == ""
  {
  }

  // ---------------------------------------------------------------------------
  // update: receipt removal

  /** `removedReceipts ?? removeReceipts` */
  function RemovalField(b: Body): Option<Json>
  {
    if b.removedReceipts.Some? && b.removedReceipts.value != JNull then b.removedReceipts
    else b.removeReceipts
  }

  /** The list of ids to remove, or `None` when the field is falsy: a string is
      parsed as JSON, falling back to a one-element list holding the string,
      and a value that is not an array is wrapped in a one-element list. */
  function RemovalIds(field: Option<Json>): Option<seq<Json>>
  {
    if field.None? || !IsTruthy(field.value) then None
    else
      var parsed :=
        if field.value.JString? then
          match Parse(field.value.s)
          case Some(v) => v
          case None => JArray([field.value])
        else field.value;
      Some(if parsed.JArray? then parsed.items else [parsed])
  }

  predicate Listed(r: Receipt, ids: seq<Json>)
  {
    JString(r.id) in ids
  }

  /** The receipts the filter keeps. */
  function Kept(rs: seq<Receipt>, ids: seq<Json>): seq<Receipt>
    decreases |rs|
  {
    if rs == [] then []
    else Kept(rs[..|rs| - 1], ids) + (if Listed(rs[|rs| - 1], ids) then [] else [rs[|rs| - 1]])
  }

  /** The paths of the receipts the filter drops. */
  function RemovedPaths(rs: seq<Receipt>, ids: seq<Json>): set<string>
    decreases |rs|
  {
    if rs == [] then {}
    else RemovedPaths(rs[..|rs| - 1], ids) + (if Listed(rs[|rs| - 1], ids) then {rs[|rs| - 1].path} else {})
  }

  /** Filtering distributes over concatenation, so the kept receipts stay in
      their order. */
  lemma {:induction false} KeptAppend(a: seq<Receipt>, b: seq<Receipt>, ids: seq<Json>)
    ensures Kept(a + b, ids) == Kept(a, ids) + Kept(b, ids)
    decreases |b|
  {
    if b != [] {
      var b' := b[..|b| - 1];
      assert (a + b)[..|a + b| - 1] == a + b';
      assert (a + b)[|a + b| - 1] == b[|b| - 1];
      KeptAppend(a, b', ids);
    } else {
      assert a + b == a;
    }
  }

  /** A receipt is kept exactly when its id is not listed; keeping is
      idempotent. */
  lemma {:induction false} KeptExactly(rs: seq<Receipt>, ids: seq<Json>)
    ensures forall r :: r in Kept(rs, ids) <==> r in rs && !Listed(r, ids)
    ensures |Kept(rs, ids)| <= |rs|
    decreases |rs|
  {
    if rs != [] {
      KeptExactly(rs[..|rs| - 1], ids);
      assert rs == rs[..|rs| - 1] + [rs[|rs| - 1]];
    }
  }

  lemma {:induction false} KeptIdempotent(rs: seq<Receipt>, ids: seq<Json>)
    ensures Kept(Kept(rs, ids), ids) == Kept(rs, ids)
    decreases |rs|
  {
    if rs != [] {
      var p := rs[..|rs| - 1];
      KeptIdempotent(p, ids);
      var last := if Listed(rs[|rs| - 1], ids) then [] else [rs[|rs| - 1]];
      KeptAppend(Kept(p, ids), last, ids);
      if last != [] {
        assert last[..0] == [];
      }
    }
  }

  /** The receipts after the removal step. */
  function AfterRemoval(rs: seq<Receipt>, field: Option<Json>): seq<Receipt>
  {
    match RemovalIds(field)
    case None => rs
    case Some(ids) => Kept(rs, ids)
  }

  /** The files the removal step unlinks. */
  function Unlinked(rs: seq<Receipt>, field: Option<Json>): set<string>
  {
    match RemovalIds(field)
    case None => {}
    case Some(ids) => RemovedPaths(rs, ids)
  }

  /** The record `updateTransaction` saves. */
  function Updated(tx: Transaction, b: Body, files: seq<UploadedFile>): Transaction
    requires UpdateProblem(b).None?
  {
    var p := Patch(tx, b);
    p.(receipts := AfterRemoval(p.receipts, RemovalField(b)) + ReceiptsOf(files))
  }

  /** `removedReceipts` wins over `removeReceipts` whenever it is present and
      not `null`, even when it is falsy and so removes nothing. */
  lemma RemovedReceiptsTakesPrecedence(b: Body)
    requires b.removedReceipts.Some? && b.removedReceipts.value != JNull
    ensures RemovalField(b) == b.removedReceipts
    ensures b.removedReceipts == Some(JString("")) ==>
      forall rs :: AfterRemoval(rs, RemovalField(b)) == rs
  {
  }

  /** The form sends the ids it removed as `JSON.stringify(ids)`; the server's
      normalisation turns that text back into exactly those ids, so exactly
      the receipts with those ids are dropped. */
  lemma FormRemovalRoundTrip(ids: seq<string>, rs: seq<Receipt>)
    ensures RemovalIds(Some(JString(StringifyStrings(ids)))) == Some(Strings(ids))
    ensures forall r :: r in AfterRemoval(rs, Some(JString(StringifyStrings(ids)))) <==> r in rs && r.id !in ids
  {
    StringifyParseRoundTrip(ids);
    assert StringifyStrings(ids) != "" by {
      assert StringifyStrings(ids)[0] == '[';
    }
    KeptExactly(rs, Strings(ids));
    forall r ensures Listed(r, Strings(ids)) <==> r.id in ids {
      if r.id in ids {
        var i :| 0 <= i < |ids| && ids[i] == r.id;
        assert Strings(ids)[i] == JString(r.id);
      }
    }
  }

  /** Receipt editing keeps the untouched receipts in order and puts the new
      uploads at the end. */
  lemma UpdatedReceipts(tx: Transaction, b: Body, files: seq<UploadedFile>)
    requires UpdateProblem(b).None?
    ensures var rs := Updated(tx, b, files).receipts;
      rs[|rs| - |files|..] == ReceiptsOf(files)
      && rs[..|rs| - |files|] == AfterRemoval(tx.receipts, RemovalField(b))
      && (RemovalIds(RemovalField(b)).None? ==> rs == tx.receipts + ReceiptsOf(files))
  {
  }

  // ---------------------------------------------------------------------------
  // delete and download

  /** The paths of a list of receipts, as `deleteTransaction` unlinks them. */
  function PathsOf(rs: seq<Receipt>): set<string>
    decreases |rs|
  {
    if rs == [] then {} else PathsOf(rs[..|rs| - 1]) + {rs[|rs| - 1].path}
  }

  /** A path is among a list's paths exactly when some receipt has it. */
  lemma {:induction false} PathsOfMembers(rs: seq<Receipt>)
    ensures forall k :: 0 <= k < |rs| ==> rs[k].path in PathsOf(rs)
    ensures forall p :: p in PathsOf(rs) ==> exists k :: 0 <= k < |rs| && rs[k].path == p
    decreases |rs|
  {
    if rs != [] {
      var prefix := rs[..|rs| - 1];
      PathsOfMembers(prefix);
      forall k | 0 <= k < |rs| ensures rs[k].path in PathsOf(rs) {
        if k < |prefix| {
          assert rs[k] == prefix[k];
        }
      }
      forall p | p in PathsOf(rs) ensures exists k :: 0 <= k < |rs| && rs[k].path == p {
        if p in PathsOf(prefix) {
          var k :| 0 <= k < |prefix| && prefix[k].path == p;
          assert rs[k] == prefix[k];
        } else {
          assert rs[|rs| - 1].path == p;
        }
      }
    }
  }

  /** The position of the first receipt with the given id (`Array.find`). */
  function FindReceipt(rs: seq<Receipt>, receiptId: string): (r: Option<nat>)
    ensures r.Some? ==> r.value < |rs| && rs[r.value].id == receiptId
    ensures r.Some? ==> forall j :: 0 <= j < r.value ==> rs[j].id != receiptId
    ensures r.None? ==> forall j :: 0 <= j < |rs| ==> rs[j].id != receiptId
    decreases |rs|
  {
    if rs == [] then None
    else if rs[0].id == receiptId then Some(0)
    else match FindReceipt(rs[1..], receiptId)
      case None => None
      case Some(k) => Some(k + 1)
  }

  /** `receipt.name || "receipt"` */
  function DownloadName(name: string): string
  {
    if name == "" then "receipt" else name
  }

  // ---------------------------------------------------------------------------
  // summary

  datatype Stat = Stat(total: real, count: nat, txType: TxType)

  datatype Summary = Summary(
    totalIncome: real,
    totalExpenses: real,
    balance: real,
    totalTransactions: nat,
    categoryBreakdown: seq<(string, Stat)>)

  /** The sum of the amounts of the transactions of one type (`filter` then
      `reduce`). */
  function AmountOf(txs: seq<Transaction>, t: TxType): real
    decreases |txs|
  {
    if txs == [] then 0.0
    else AmountOf(txs[..|txs| - 1], t) + (if txs[|txs| - 1].txType == t then txs[|txs| - 1].amount else 0.0)
  }

  /** The number of transactions in a category. */
  function CountIn(txs: seq<Transaction>, c: string): nat
    decreases |txs|
  {
    if txs == [] then 0
    else CountIn(txs[..|txs| - 1], c) + (if txs[|txs| - 1].category == c then 1 else 0)
  }

  /** The sum of the amounts in a category. */
  function AmountIn(txs: seq<Transaction>, c: string): real
    decreases |txs|
  {
    if txs == [] then 0.0
    else AmountIn(txs[..|txs| - 1], c) + (if txs[|txs| - 1].category == c then txs[|txs| - 1].amount else 0.0)
  }

  /** The type of the first transaction in a category, if any. */
  function FirstTypeIn(txs: seq<Transaction>, c: string): Option<TxType>
    decreases |txs|
  {
    if txs == [] then None
    else match FirstTypeIn(txs[..|txs| - 1], c)
      case Some(t) => Some(t)
      case None => if txs[|txs| - 1].category == c then Some(txs[|txs| - 1].txType) else None
  }

  /** The position of a category in the breakdown object. */
  function IndexOf(entries: seq<(string, Stat)>, key: string): (r: Option<nat>)
    ensures r.Some? ==> r.value < |entries| && entries[r.value].0 == key
    ensures r.Some? ==> forall j :: 0 <= j < r.value ==> entries[j].0 != key
    ensures r.None? ==> forall j :: 0 <= j < |entries| ==> entries[j].0 != key
    decreases |entries|
  {
    if entries == [] then None
    else if entries[0].0 == key then Some(0)
    else match IndexOf(entries[1..], key)
      case None => None
      case Some(k) => Some(k + 1)
  }

  /** One step of the `categoryBreakdown` loop. `inherited` holds the keys the
      object already answers through its prototype: for those the existence
      check `!categoryBreakdown[c]` is false, no own entry is made and the
      increments go to the inherited value instead. */
  function AddTo(entries: seq<(string, Stat)>, t: Transaction, inherited: set<string>): seq<(string, Stat)>
  {
    if t.category in inherited then entries
    else match IndexOf(entries, t.category)
      case None => entries + [(t.category, Stat(t.amount, 1, t.txType))]
      case Some(k) =>
        var s := entries[k].1;
        entries[k := (t.category, Stat(s.total + t.amount, s.count + 1, s.txType))]
  }

  function BreakdownWith(txs: seq<Transaction>, inherited: set<string>): seq<(string, Stat)>
    decreases |txs|
  {
    if txs == [] then []
    else AddTo(BreakdownWith(txs[..|txs| - 1], inherited), txs[|txs| - 1], inherited)
  }

  /** The members of `Object.prototype`, which a plain `{}` inherits. */
  const PrototypeNames: set<string> := {
    "constructor", "__proto__", "toString", "toLocaleString", "valueOf",
    "hasOwnProperty", "isPrototypeOf", "propertyIsEnumerable",
    "__defineGetter__", "__defineSetter__", "__lookupGetter__", "__lookupSetter__"}

  /** The breakdown as the handler computes it on a plain object. */
  function BreakdownAsWritten(txs: seq<Transaction>): seq<(string, Stat)>
  {
    BreakdownWith(txs, PrototypeNames)
  }

  /** The breakdown over own keys only (a prototype-free dictionary), which
      the summary uses. */
  function Breakdown(txs: seq<Transaction>): seq<(string, Stat)>
  {
    BreakdownWith(txs, {})
  }

  function CountSum(entries: seq<(string, Stat)>): nat
    decreases |entries|
  {
    if entries == [] then 0 else entries[0].1.count + CountSum(entries[1..])
  }

  function TotalSum(entries: seq<(string, Stat)>): real
    decreases |entries|
  {
    if entries == [] then 0.0 else entries[0].1.total + TotalSum(entries[1..])
  }

  lemma {:induction false} SumsAppend(entries: seq<(string, Stat)>, x: (string, Stat))
    ensures CountSum(entries + [x]) == CountSum(entries) + x.1.count
    ensures TotalSum(entries + [x]) == TotalSum(entries) + x.1.total
    decreases |entries|
  {
    if entries != [] {
      assert (entries + [x])[1..] == entries[1..] + [x];
      SumsAppend(entries[1..], x);
    }
  }

  lemma {:induction false} SumsUpdate(entries: seq<(string, Stat)>, k: nat, x: (string, Stat))
    requires k < |entries|
    ensures CountSum(entries[k := x]) == CountSum(entries) - entries[k].1.count + x.1.count
    ensures TotalSum(entries[k := x]) == TotalSum(entries) - entries[k].1.total + x.1.total
    decreases |entries|
  {
    if k > 0 {
      assert entries[k := x][1..] == entries[1..][k - 1 := x];
      SumsUpdate(entries[1..], k - 1, x);
    }
  }

  /** The per-category counts add up to the number of transactions, and the
      per-category totals to income plus expenses. */
  lemma {:induction false} BreakdownSums(txs: seq<Transaction>)
    ensures CountSum(Breakdown(txs)) == |txs|
    ensures TotalSum(Breakdown(txs)) == AmountOf(txs, Credit) + AmountOf(txs, Debit)
    decreases |txs|
  {
    if txs != [] {
      var p := txs[..|txs| - 1];
      var t := txs[|txs| - 1];
      var e := Breakdown(p);
      BreakdownSums(p);
      match IndexOf(e, t.category)
      case None =>
        SumsAppend(e, (t.category, Stat(t.amount, 1, t.txType)));
      case Some(k) =>
        var s := e[k].1;
        SumsUpdate(e, k, (t.category, Stat(s.total + t.amount, s.count + 1, s.txType)));
    }
  }

  lemma IndexOfFirst(entries: seq<(string, Stat)>, key: string, j: nat)
    requires j < |entries| && entries[j].0 == key
    requires forall i :: 0 <= i < j ==> entries[i].0 != key
    ensures IndexOf(entries, key) == Some(j)
  {
  }

  lemma IndexOfAbsent(entries: seq<(string, Stat)>, key: string)
    requires forall i :: 0 <= i < |entries| ==> entries[i].0 != key
    ensures IndexOf(entries, key) == None
  {
  }

  /** The categories of a step's result are those before, plus the new one. */
  lemma AddToOtherKey(e: seq<(string, Stat)>, t: Transaction, c: string)
    requires t.category != c
    ensures IndexOf(AddTo(e, t, {}), c) == IndexOf(e, c)
    ensures IndexOf(e, c).Some? ==> AddTo(e, t, {})[IndexOf(e, c).value] == e[IndexOf(e, c).value]
  {
    var e' := AddTo(e, t, {});
    assert |e| <= |e'|;
    assert forall i :: 0 <= i < |e'| ==> (e'[i].0 == c <==> i < |e| && e[i].0 == c);
    match IndexOf(e, c)
    case None =>
      IndexOfAbsent(e', c);
    case Some(j) =>
      IndexOfFirst(e', c, j);
  }

  /** Each category of the breakdown is a category some transaction has; its
      count and total are those of the transactions in it, and its type is the
      type of the first one of them. */
  lemma {:induction false} BreakdownEntry(txs: seq<Transaction>, c: string)
    ensures var e := Breakdown(txs);
      var k := IndexOf(e, c);
      && (k.Some? <==> CountIn(txs, c) > 0)
      && (k.Some? ==> e[k.value].1.count == CountIn(txs, c) && e[k.value].1.total == AmountIn(txs, c))
      && FirstTypeIn(txs, c) == (if k.Some? then Some(e[k.value].1.txType) else None)
    decreases |txs|
  {
    if txs != [] {
      var p := txs[..|txs| - 1];
      var t := txs[|txs| - 1];
      var e := Breakdown(p);
      BreakdownEntry(p, c);
      EmptyCategory(p, c);
      assert Breakdown(txs) == AddTo(e, t, {});
      if t.category != c {
        AddToOtherKey(e, t, c);
      } else {
        match IndexOf(e, c)
        case None =>
          var e' := e + [(c, Stat(t.amount, 1, t.txType))];
          IndexOfFirst(e', c, |e|);
        case Some(j) =>
          var s := e[j].1;
          var e' := e[j := (c, Stat(s.total + t.amount, s.count + 1, s.txType))];
          IndexOfFirst(e', c, j);
      }
    }
  }

  lemma {:induction false} EmptyCategory(txs: seq<Transaction>, c: string)
    ensures CountIn(txs, c) == 0 ==> AmountIn(txs, c) == 0.0
    decreases |txs|
  {
    if txs != [] {
      EmptyCategory(txs[..|txs| - 1], c);
    }
  }

  /** `FirstTypeIn` is the type of the earliest transaction in the category. */
  lemma {:induction false} FirstTypeIsEarliest(txs: seq<Transaction>, c: string, i: nat)
    requires i < |txs| && txs[i].category == c
    requires forall j :: 0 <= j < i ==> txs[j].category != c
    ensures FirstTypeIn(txs, c) == Some(txs[i].txType)
    decreases |txs|
  {
    var p := txs[..|txs| - 1];
    if i < |txs| - 1 {
      FirstTypeIsEarliest(p, c, i);
    } else {
      NoneBeforeFirst(p, c);
    }
  }

  lemma {:induction false} NoneBeforeFirst(txs: seq<Transaction>, c: string)
    requires forall j :: 0 <= j < |txs| ==> txs[j].category != c
    ensures FirstTypeIn(txs, c) == None
    decreases |txs|
  {
    if txs != [] {
      NoneBeforeFirst(txs[..|txs| - 1], c);
    }
  }

  /** Off the prototype names the handler's breakdown is the intended one. */
  lemma {:induction false} AsWrittenAgreesOffPrototype(txs: seq<Transaction>)
    requires forall i :: 0 <= i < |txs| ==> txs[i].category !in PrototypeNames
    ensures BreakdownAsWritten(txs) == Breakdown(txs)
    decreases |txs|
  {
    if txs != [] {
      AsWrittenAgreesOffPrototype(txs[..|txs| - 1]);
    }
  }

  /** One transaction in category "toString": the handler's breakdown has no
      entry and its counts sum to 0, not to the 1 transaction reported. */
  lemma PrototypeCategoryLost(t: Transaction)
    requires t.category == "toString"
    ensures BreakdownAsWritten([t]) == []
    ensures CountSum(BreakdownAsWritten([t])) == 0 != |[t]|
    ensures CountSum(Breakdown([t])) == 1
  {
    var txs := [t];
    assert txs[..|txs| - 1] == [] && txs[|txs| - 1] == t;
    assert BreakdownWith([], PrototypeNames) == [];
    assert BreakdownWith(txs, PrototypeNames) == AddTo([], t, PrototypeNames);
    assert "toString" in PrototypeNames;
    var e := [(t.category, Stat(t.amount, 1, t.txType))];
    assert BreakdownWith(txs, {}) == AddTo([], t, {}) == e;
    assert CountSum(e) == 1 + CountSum(e[1..]);
  }

  // ---------------------------------------------------------------------------
  // the store

  /** A listing of the caller's transactions, as `(id, record)` pairs: each
      owned record exactly once and nothing else. */
  predicate Listing(records: map<string, Transaction>, userId: string, m: multiset<(string, Transaction)>)
  {
    (forall p :: p in m ==> p.0 in records && p.1 == records[p.0] && p.1.userId == userId && m[p] == 1)
    && (forall id :: id in records && records[id].userId == userId ==> (id, records[id]) in m)
  }

  function DateOf(p: (string, Transaction)): int
  {
    p.1.date
  }

  function RecordsOf(l: seq<(string, Transaction)>): (txs: seq<Transaction>)
    ensures |txs| == |l| && forall i :: 0 <= i < |l| ==> txs[i] == l[i].1
  {
    seq(|l|, i requires 0 <= i < |l| => l[i].1)
  }

  /** What the summary reports about a list of transactions. The breakdown is
      the handler's own, on a plain object; `AsWrittenAgreesOffPrototype`
      says when it is the corrected `Breakdown`. */
  predicate Summarizes(s: Summary, txs: seq<Transaction>)
  {
    && s.totalIncome == AmountOf(txs, Credit)
    && s.totalExpenses == AmountOf(txs, Debit)
    && s.balance == s.totalIncome - s.totalExpenses
    && s.totalTransactions == |txs|
    && s.categoryBreakdown == BreakdownAsWritten(txs)
  }

  /** The summary of a list: income and expense totals, balance, count, and
      the per-category breakdown built in one pass. */
  method Summarize(txs: seq<Transaction>) returns (s: Summary)
    ensures Summarizes(s, txs)
  {
    var breakdown: seq<(string, Stat)> := [];
    var i := 0;
    while i < |txs|
      invariant 0 <= i <= |txs|
      invariant breakdown == BreakdownAsWritten(txs[..i])
    {
      var t := txs[i];
      var prior := breakdown;
      if t.category !in PrototypeNames {
        var k := IndexOf(breakdown, t.category);
        if k.None? {
          breakdown := breakdown + [(t.category, Stat(0.0, 0, t.txType))];
          k := Some(|breakdown| - 1);
        }
        var entry := breakdown[k.value].1;
        breakdown := breakdown[k.value := (t.category, Stat(entry.total + t.amount, entry.count + 1, entry.txType))];
      }
      assert txs[..i + 1][..i] == txs[..i];
      assert breakdown == AddTo(prior, t, PrototypeNames);
      i := i + 1;
    }
    assert txs[..i] == txs;
    var income := AmountOf(txs, Credit);
    var expenses := AmountOf(txs, Debit);
    s := Summary(income, expenses, income - expenses, |txs|, breakdown);
  }

  class TransactionStore {
    var records: map<string, Transaction>
    var disk: set<string>

    predicate Valid()
      reads this
    {
      forall id :: id in records ==> ValidRecord(records[id])
    }

    constructor()
      ensures records == map[] && disk == {}
      ensures Valid()
    {
      records := map[];
      disk := {};
    }

    /** The caller's transactions in some order (the database's). */
    method OwnedList(userId: string) returns (l: seq<(string, Transaction)>)
      ensures Listing(records, userId, multiset(l))
    {
      var left := records.Keys;
      l := [];
      while left != {}
        invariant left <= records.Keys
        invariant forall p :: p in multiset(l) ==>
          p.0 in records && p.0 !in left && p.1 == records[p.0] && p.1.userId == userId && multiset(l)[p] == 1
        invariant forall id :: id in records && id !in left && records[id].userId == userId ==>
          (id, records[id]) in multiset(l)
        decreases left
      {
        var id :| id in left;
        if records[id].userId == userId {
          assert (id, records[id]) !in multiset(l);
          l := l + [(id, records[id])];
        }
        left := left - {id};
      }
    }

    /** `getTransactions`: 401 without a user, otherwise the caller's
      transactions, newest date first. */
    method GetTransactions(userId: Option<string>) returns (r: Reply<seq<(string, Transaction)>>)
      ensures r.Fail? <==> !Truthy(userId)
      ensures r.Fail? ==> r == Fail(401, "Unauthorized")
      ensures r.Ok? ==> Listing(records, userId.value, multiset(r.value)) && SortedDesc(r.value, DateOf)
    {
      if !Truthy(userId) {
        return Fail(401, "Unauthorized");
      }
      var l := OwnedList(userId.value);
      var sorted := SortDesc(l, DateOf);
      SortDescSorted(l, DateOf);
      SortDescPermutation(l, DateOf);
      r := Ok(sorted);
    }

    /** `getTransaction`: 401, then the ownership lookup. */
    function GetTransaction(userId: Option<string>, id: string): (r: Reply<Transaction>)
      reads this
      ensures !Truthy(userId) ==> r == Fail(401, "Unauthorized")
      ensures r.Ok? ==> id in records && r.value == records[id] && r.value.userId == userId.value
      ensures Truthy(userId) && id !in records ==> r == Fail(404, "Transaction not found")
      ensures Truthy(userId) && id in records && records[id].userId != userId.value ==>
        r == Fail(403, "Unauthorized")
      ensures Truthy(userId) && id in records && records[id].userId == userId.value ==>
        r == Ok(records[id])
    {
      if !Truthy(userId) then Fail(401, "Unauthorized") else FindOwned(records, id, userId.value)
    }

    /** `upload.array("receipts")`, which the create and update routes run
      before their handlers: multer writes every uploaded file to
      `uploads/<filename>` (backend/middleware/upload.js:11-17). */
    method StoreUploads(files: seq<UploadedFile>)
      modifies this
      ensures disk == old(disk) + PathsOf(ReceiptsOf(files))
      ensures records == old(records)
    {
      disk := disk + PathsOf(ReceiptsOf(files));
    }

    /** The upload step followed by `createTransaction`: 401, then the body
      checks; on success one new record under the fresh id the database
      assigns. The uploaded files are on disk whatever the handler answers,
      so every receipt of a new record can be downloaded. */
    method Create(userId: Option<string>, b: Body, files: seq<UploadedFile>, newId: string)
      returns (r: Reply<Transaction>)
      requires Valid() && newId !in records
      modifies this
      ensures Valid() && disk == old(disk) + PathsOf(ReceiptsOf(files))
      ensures r.Ok? ==> forall k :: 0 <= k < |r.value.receipts| ==> r.value.receipts[k].path in disk
      ensures !Truthy(userId) ==> r == Fail(401, "Unauthorized") && records == old(records)
      ensures Truthy(userId) && CreateProblem(b).Some? ==>
        r == Fail(400, CreateProblem(b).value) && records == old(records)
      ensures Truthy(userId) && CreateProblem(b).None? ==>
        r == Ok(NewTransaction(userId.value, b, files))
        && records == old(records)[newId := NewTransaction(userId.value, b, files)]
    {
      StoreUploads(files);
      if !Truthy(userId) {
        return Fail(401, "Unauthorized");
      }
      var problem := CreateProblem(b);
      if problem.Some? {
        return Fail(400, problem.value);
      }
      var tx := NewTransaction(userId.value, b, files);
      PathsOfMembers(ReceiptsOf(files));
      records := records[newId := tx];
      r := Ok(tx);
    }

    /** The upload step followed by `updateTransaction`: 401, the ownership
      lookup, the amount and type checks, then the field patch, the receipt
      removal (unlinking the files of removed receipts that exist) and the
      appended uploads. The uploaded files are on disk whatever the handler
      answers. */
    method Update(userId: Option<string>, id: string, b: Body, files: seq<UploadedFile>)
      returns (r: Reply<Transaction>)
      requires Valid()
      modifies this
      ensures Valid()
      ensures !Truthy(userId) ==>
        r == Fail(401, "Unauthorized") && records == old(records)
        && disk == old(disk) + PathsOf(ReceiptsOf(files))
      ensures Truthy(userId) ==>
        var found := FindOwned(old(records), id, userId.value);
        var uploaded := old(disk) + PathsOf(ReceiptsOf(files));
        if found.Fail? then r == found && records == old(records) && disk == uploaded
        else if UpdateProblem(b).Some? then
          r == Fail(400, UpdateProblem(b).value) && records == old(records) && disk == uploaded
        else
          r == Ok(Updated(found.value, b, files))
          && records == old(records)[id := Updated(found.value, b, files)]
          && disk == uploaded - Unlinked(found.value.receipts, RemovalField(b))
    {
      StoreUploads(files);
      if !Truthy(userId) {
        return Fail(401, "Unauthorized");
      }
      var found := FindOwned(records, id, userId.value);
      if found.Fail? {
        return found;
      }
      var problem := UpdateProblem(b);
      if problem.Some? {
        return Fail(400, problem.value);
      }
      var tx := AssignFields(found.value, b);

      var ids := RemovalIds(RemovalField(b));
      if ids.Some? {
        var kept := FilterReceipts(tx.receipts, ids.value);
        tx := tx.(receipts := kept);
      }
      if |files| > 0 {
        tx := tx.(receipts := tx.receipts + ReceiptsOf(files));
      } else {
        assert tx.receipts + ReceiptsOf(files) == tx.receipts;
      }
      PatchProperties(found.value, b);
      records := records[id := tx];
      r := Ok(tx);
    }

    /** The receipt filter of `updateTransaction`: listed receipts are dropped
      and their files unlinked when present. */
    method FilterReceipts(receipts: seq<Receipt>, ids: seq<Json>) returns (kept: seq<Receipt>)
      modifies this
      ensures kept == Kept(receipts, ids)
      ensures disk == old(disk) - RemovedPaths(receipts, ids)
      ensures records == old(records)
    {
      kept := [];
      var i := 0;
      while i < |receipts|
        invariant 0 <= i <= |receipts|
        invariant kept == Kept(receipts[..i], ids)
        invariant disk == old(disk) - RemovedPaths(receipts[..i], ids)
        invariant records == old(records)
      {
        var rc := receipts[i];
        if JString(rc.id) in ids {
          if rc.path in disk {
            disk := disk - {rc.path};
          }
        } else {
          kept := kept + [rc];
        }
        assert receipts[..i + 1][..i] == receipts[..i];
        i := i + 1;
      }
      assert receipts[..i] == receipts;
    }

    /** `deleteTransaction`: 401, the ownership lookup, then every receipt
      file that exists is unlinked and the record removed. */
    method Delete(userId: Option<string>, id: string) returns (r: Reply<string>)
      requires Valid()
      modifies this
      ensures Valid()
      ensures !Truthy(userId) ==> r == Fail(401, "Unauthorized") && records == old(records) && disk == old(disk)
      ensures Truthy(userId) ==>
        var found := FindOwned(old(records), id, userId.value);
        if found.Fail? then r == Fail(found.status, found.message) && records == old(records) && disk == old(disk)
        else
          r == Ok("Transaction deleted successfully")
          && records == old(records) - {id}
          && disk == old(disk) - PathsOf(found.value.receipts)
    {
      if !Truthy(userId) {
        return Fail(401, "Unauthorized");
      }
      var found := FindOwned(records, id, userId.value);
      if found.Fail? {
        return Fail(found.status, found.message);
      }
      var receipts := found.value.receipts;
      var i := 0;
      while i < |receipts|
        invariant 0 <= i <= |receipts|
        invariant disk == old(disk) - PathsOf(receipts[..i])
        invariant records == old(records)
      {
        if receipts[i].path in disk {
          disk := disk - {receipts[i].path};
        }
        assert receipts[..i + 1][..i] == receipts[..i];
        i := i + 1;
      }
      assert receipts[..i] == receipts;
      records := records - {id};
      r := Ok("Transaction deleted successfully");
    }

    /** `getTransactionSummary`: 401, otherwise the summary of the caller's
      transactions in the order the database lists them. */
    method GetSummary(userId: Option<string>) returns (r: Reply<Summary>)
      ensures r.Fail? <==> !Truthy(userId)
      ensures r.Fail? ==> r == Fail(401, "Unauthorized")
      ensures r.Ok? ==> exists l :: Listing(records, userId.value, multiset(l)) && Summarizes(r.value, RecordsOf(l))
    {
      if !Truthy(userId) {
        return Fail(401, "Unauthorized");
      }
      var l := OwnedList(userId.value);
      var s := Summarize(RecordsOf(l));
      r := Ok(s);
    }

    /** `downloadReceipt`: 401, the ownership lookup, 404 for an unknown
      receipt id, 404 for a file that is not on disk; otherwise the path and
      the name to offer. */
    function DownloadReceipt(userId: Option<string>, id: string, receiptId: string): (r: Reply<(string, string)>)
      reads this
      ensures !Truthy(userId) ==> r == Fail(401, "Unauthorized")
      ensures r.Ok? ==>
        && Truthy(userId) && id in records && records[id].userId == userId.value
        && r.value.0 in disk
        && (exists k :: 0 <= k < |records[id].receipts| && records[id].receipts[k].id == receiptId
              && records[id].receipts[k].path == r.value.0 && r.value.1 == DownloadName(records[id].receipts[k].name))
      ensures Truthy(userId) && FindOwned(records, id, userId.value).Fail? ==>
        r == Fail(FindOwned(records, id, userId.value).status, FindOwned(records, id, userId.value).message)
      ensures Truthy(userId) && id in records && records[id].userId == userId.value ==>
        (r == Fail(404, "Receipt not found") <==> FindReceipt(records[id].receipts, receiptId).None?)
      ensures (Truthy(userId) && id in records && records[id].userId == userId.value
               && FindReceipt(records[id].receipts, receiptId).Some?) ==>
        (r == Fail(404, "File not found") <==>
          records[id].receipts[FindReceipt(records[id].receipts, receiptId).value].path !in disk)
    {
      if !Truthy(userId) then Fail(401, "Unauthorized")
      else match FindOwned(records, id, userId.value)
        case Fail(status, message) => Fail(status, message)
        case Ok(tx) =>
          match FindReceipt(tx.receipts, receiptId)
          case None => Fail(404, "Receipt not found")
          case Some(k) =>
            if tx.receipts[k].path !in disk then Fail(404, "File not found")
            else Ok((tx.receipts[k].path, DownloadName(tx.receipts[k].name)))
    }
  }

  /** After a delete the id is unknown: a later lookup answers 404. */
  lemma DeletedIsNotFound(records: map<string, Transaction>, id: string, userId: string)
    ensures FindOwned(records - {id}, id, userId) == Fail(404, "Transaction not found")
  {
  }
}
