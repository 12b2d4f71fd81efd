/** The add/edit transaction form (frontend/src/pages/AddTransaction.jsx):
    its state, the change, file, remove-receipt and submit handlers, and the
    multipart payload it sends. The clock (`Date.now()` and today's date), the
    server's answer and the number the amount text parses to are parameters. */
module AddTransactionPage {
  import opened Common
  import Json
  import Upload
  import TS = TransactionService

  /** A file picked in the browser. */
  datatype FileRef = FileRef(name: string, size: nat, mime: string)

  /** A receipt in the form: one loaded from the server carries its stored
      id; one just picked carries a local id and the file itself. */
  datatype FormReceipt = FormReceipt(
    mongoId: Option<string>,
    localId: Option<string>,
    name: string,
    size: real,
    file: Option<FileRef>)

  datatype FormData = FormData(
    subject: string,
    merchant: string,
    amount: string,
    txType: string,
    date: string,
    category: string,
    description: string,
    receipts: seq<FormReceipt>,
    removedReceipts: seq<string>)

  /** The types the form's select offers. */
  predicate KnownType(t: string)
  {
    t == "debit" || t == "credit"
  }

  /** The empty form, dated `today` (the day part of the ISO date). */
  function InitialForm(today: string): (f: FormData)
    ensures KnownType(f.txType) && f.receipts == [] && f.removedReceipts == []
    ensures Get(f, Kind) == "debit" && Get(f, Date) == today
    ensures forall field :: field != Kind && field != Date ==> Get(f, field) == ""
  {
    FormData("", "", "", "debit", today, "", "", [], [])
  }

  // ---------------------------------------------------------------------------
  // handleChange

  /** The text inputs and the type select. */
  datatype Field = Subject | Merchant | Amount | Kind | Date | Category | Description

  function Get(f: FormData, field: Field): string
  {
    match field
      case Subject => f.subject
      case Merchant => f.merchant
      case Amount => f.amount
      case Kind => f.txType
      case Date => f.date
      case Category => f.category
      case Description => f.description
  }

  /** `handleChange`: a new type also clears the category. */
  function WithField(f: FormData, field: Field, value: string): FormData
  {
    match field
      case Subject => f.(subject := value)
      case Merchant => f.(merchant := value)
      case Amount => f.(amount := value)
      case Kind => f.(txType := value, category := "")
      case Date => f.(date := value)
      case Category => f.(category := value)
      case Description => f.(description := value)
  }

  /** A change sets its own field and leaves every other field and both
      receipt lists as they were, except that changing the type empties the
      category. */
  lemma ChangeSetsOnlyThatField(f: FormData, field: Field, value: string, other: Field)
    ensures Get(WithField(f, field, value), field) == value
    ensures other != field && !(field == Kind && other == Category) ==>
      Get(WithField(f, field, value), other) == Get(f, other)
    ensures field == Kind ==> WithField(f, field, value).category == ""
    ensures WithField(f, field, value).receipts == f.receipts
    ensures WithField(f, field, value).removedReceipts == f.removedReceipts
  {
  }

  // ---------------------------------------------------------------------------
  // handleFileChange

  /** The local id of a picked file: the time, its position among the files
      picked together, and its name, joined by `-`. */
  function NewId(now: nat, index: nat, name: string): string
  {
    Decimal(now) + "-" + Decimal(index) + "-" + name
  }

  function ReceiptFor(file: FileRef, now: nat, index: nat): FormReceipt
  {
    FormReceipt(None, Some(NewId(now, index, file.name)), file.name, (file.size as real) / 1024.0, Some(file))
  }

  /** The receipts added for the picked files: one per file of at most 5 MB,
      in order; larger files are skipped but still take up their index. */
  function Accepted(files: seq<FileRef>, now: nat): seq<FormReceipt>
    decreases |files|
  {
    if files == [] then []
    else
      var i := |files| - 1;
      Accepted(files[..i], now)
      + (if files[i].size > Upload.MaxFileSize then [] else [ReceiptFor(files[i], now, i)])
  }

  /** The position a local id encodes, or -1. */
  function SerialOf(id: string): int
  {
    var pieces := Split(id, "-");
    if |pieces| >= 2 && AllDigits(pieces[1]) then DigitsValue(pieces[1]) else -1
  }

  lemma DigitsHaveNoDash(n: nat)
    ensures '-' !in Decimal(n)
  {
    DecimalRoundTrip(n);
  }

  /** The position can be read back from a local id. */
  lemma NewIdSerial(now: nat, index: nat, name: string)
    ensures SerialOf(NewId(now, index, name)) == index
  {
    DigitsHaveNoDash(now);
    DigitsHaveNoDash(index);
    DecimalRoundTrip(index);
    assert NewId(now, index, name) == Decimal(now) + "-" + (Decimal(index) + "-" + name);
    SplitAtFirst(Decimal(now), "-", Decimal(index) + "-" + name);
    SplitAtFirst(Decimal(index), "-", name);
  }

  predicate DistinctIds(rs: seq<FormReceipt>)
  {
    forall k, l :: 0 <= k < l < |rs| ==> rs[k].localId != rs[l].localId
  }

  /** An added receipt: it carries its file, which is within the server's
      upload limit, has no stored id, and its local id encodes a position
      below `count`. */
  predicate NewReceipt(r: FormReceipt, count: nat)
  {
    r.file.Some? && Upload.WithinLimit(r.file.value.size) && r.mongoId.None? && r.localId.Some?
    && 0 <= SerialOf(r.localId.value) < count
  }

  /** Every added receipt carries its file, which is within the server's
      upload limit; the files carried are exactly the picked files within the
      limit, in the order picked; and the receipts added
      together have distinct local ids, each encoding a position below the
      number of files. */
  lemma {:induction false} AcceptedSpec(files: seq<FileRef>, now: nat)
    ensures |Accepted(files, now)| <= |files|
    ensures (forall j :: 0 <= j < |files| ==> Upload.WithinLimit(files[j].size)) ==>
      |Accepted(files, now)| == |files|
    ensures forall k :: 0 <= k < |Accepted(files, now)| ==> NewReceipt(Accepted(files, now)[k], |files|)
    ensures DistinctIds(Accepted(files, now))
    ensures PickedFiles(Accepted(files, now)) == WithinLimitFiles(files)
    decreases |files|
  {
    AcceptedLength(files, now);
    AcceptedFiles(files, now);
    if files != [] {
      var i := |files| - 1;
      var prev := Accepted(files[..i], now);
      AcceptedSpec(files[..i], now);
      if files[i].size <= Upload.MaxFileSize {
        var r := ReceiptFor(files[i], now, i);
        NewIdSerial(now, i, files[i].name);
        assert Accepted(files, now) == prev + [r];
        AppendNewReceipt(prev, r, i);
      } else {
        assert Accepted(files, now) == prev;
        assert forall k :: 0 <= k < |prev| ==> NewReceipt(prev[k], |files|);
      }
    }
  }

  /** The picked files within the server's upload limit, in order. */
  function WithinLimitFiles(files: seq<FileRef>): seq<FileRef>
    decreases |files|
  {
    if files == [] then []
    else
      var i := |files| - 1;
      WithinLimitFiles(files[..i]) + (if Upload.WithinLimit(files[i].size) then [files[i]] else [])
  }

  /** The files carried by the receipts, in order. */
  function PickedFiles(rs: seq<FormReceipt>): seq<FileRef>
    decreases |rs|
  {
    if rs == [] then []
    else (if rs[0].file.Some? then [rs[0].file.value] else []) + PickedFiles(rs[1..])
  }

  lemma {:induction false} PickedFilesAppend(a: seq<FormReceipt>, b: seq<FormReceipt>)
    ensures PickedFiles(a + b) == PickedFiles(a) + PickedFiles(b)
    decreases |a|
  {
    if a == [] {
      assert a + b == b;
    } else {
      var h := if a[0].file.Some? then [a[0].file.value] else [];
      calc {
        PickedFiles(a + b);
        == { assert (a + b)[0] == a[0]; assert (a + b)[1..] == a[1..] + b; }
        h + PickedFiles(a[1..] + b);
        == { PickedFilesAppend(a[1..], b); }
        h + (PickedFiles(a[1..]) + PickedFiles(b));
        ==
        PickedFiles(a) + PickedFiles(b);
      }
    }
  }

  /** A file is carried if and only if some receipt holds it. */
  lemma {:induction false} PickedFilesMembers(rs: seq<FormReceipt>)
    ensures forall f :: f in PickedFiles(rs) <==> exists r :: r in rs && r.file == Some(f)
    decreases |rs|
  {
    if rs != [] {
      PickedFilesMembers(rs[1..]);
      forall f | (exists r :: r in rs && r.file == Some(f)) ensures f in PickedFiles(rs) {
        var r :| r in rs && r.file == Some(f);
        if r != rs[0] {
          assert r in rs[1..];
        }
      }
      forall f | f in PickedFiles(rs) ensures exists r :: r in rs && r.file == Some(f) {
        if f !in PickedFiles(rs[1..]) {
          assert rs[0].file == Some(f);
        } else {
          var r :| r in rs[1..] && r.file == Some(f);
          assert r in rs;
        }
      }
    }
  }

  /** The receipts added for a selection carry exactly its files within the
      limit, in selection order. */
  lemma {:induction false} AcceptedFiles(files: seq<FileRef>, now: nat)
    ensures PickedFiles(Accepted(files, now)) == WithinLimitFiles(files)
    decreases |files|
  {
    if files != [] {
      var i := |files| - 1;
      var tail := if files[i].size > Upload.MaxFileSize then [] else [ReceiptFor(files[i], now, i)];
      AcceptedFiles(files[..i], now);
      PickedFilesAppend(Accepted(files[..i], now), tail);
      if tail != [] {
        assert tail[1..] == [];
      }
    }
  }

  /** One more picked file adds at most its own receipt. */
  lemma AcceptedStep(files: seq<FileRef>, now: nat, i: nat)
    requires i < |files|
    ensures Accepted(files[..i + 1], now) == Accepted(files[..i], now)
      + (if files[i].size > Upload.MaxFileSize then [] else [ReceiptFor(files[i], now, i)])
  {
    assert files[..i + 1][..i] == files[..i];
  }

  /** Every added receipt carries a file within the upload limit. */
  lemma AcceptedWithinLimit(files: seq<FileRef>, now: nat)
    ensures forall k :: 0 <= k < |Accepted(files, now)| ==>
      Accepted(files, now)[k].file.Some? && Upload.WithinLimit(Accepted(files, now)[k].file.value.size)
  {
    AcceptedSpec(files, now);
  }

  /** At most one receipt per file, and exactly one when every file is
      within the limit. */
  lemma {:induction false} AcceptedLength(files: seq<FileRef>, now: nat)
    ensures |Accepted(files, now)| <= |files|
    ensures (forall j :: 0 <= j < |files| ==> Upload.WithinLimit(files[j].size)) ==>
      |Accepted(files, now)| == |files|
    decreases |files|
  {
    if files != [] {
      var i := |files| - 1;
      var prefix := files[..i];
      AcceptedLength(prefix, now);
      if forall j :: 0 <= j < |files| ==> Upload.WithinLimit(files[j].size) {
        assert forall j :: 0 <= j < |prefix| ==> Upload.WithinLimit(prefix[j].size) by {
          forall j | 0 <= j < |prefix| ensures Upload.WithinLimit(prefix[j].size) {
            assert prefix[j] == files[j];
          }
        }
        assert Upload.WithinLimit(files[i].size);
      }
    }
  }

  /** Appending a receipt whose id encodes the next position keeps the ids
      distinct and below the next count. */
  lemma AppendNewReceipt(rs: seq<FormReceipt>, r: FormReceipt, n: nat)
    requires forall k :: 0 <= k < |rs| ==> NewReceipt(rs[k], n)
    requires DistinctIds(rs)
    requires r.file.Some? && Upload.WithinLimit(r.file.value.size) && r.mongoId.None?
    requires r.localId.Some? && SerialOf(r.localId.value) == n
    ensures forall k :: 0 <= k < |rs + [r]| ==> NewReceipt((rs + [r])[k], n + 1)
    ensures DistinctIds(rs + [r])
  {
    var t := rs + [r];
    forall k, l | 0 <= k < l < |t| ensures t[k].localId != t[l].localId {
      if l == |rs| {
        assert SerialOf(t[k].localId.value) < n;
      }
    }
  }

  // ---------------------------------------------------------------------------
  // handleRemoveReceipt

  /** The id a receipt is compared by: for an existing receipt the stored id
      when it is non-empty, else the local one; for a new one the local id. */
  function ReceiptKey(r: FormReceipt, existing: bool): Option<string>
  {
    if existing && Truthy(r.mongoId) then r.mongoId else r.localId
  }

  /** The receipts whose key is not `id`, in order. */
  function DropReceipts(rs: seq<FormReceipt>, id: string, existing: bool): seq<FormReceipt>
    decreases |rs|
  {
    if rs == [] then []
    else
      (if ReceiptKey(rs[0], existing) != Some(id) then [rs[0]] else [])
      + DropReceipts(rs[1..], id, existing)
  }

  /** Removing keeps exactly the receipts with another key. */
  lemma {:induction false} DropReceiptsMembers(rs: seq<FormReceipt>, id: string, existing: bool)
    ensures forall r :: r in DropReceipts(rs, id, existing) <==> r in rs && ReceiptKey(r, existing) != Some(id)
    ensures |DropReceipts(rs, id, existing)| <= |rs|
    decreases |rs|
  {
    if rs != [] {
      DropReceiptsMembers(rs[1..], id, existing);
      assert rs == [rs[0]] + rs[1..];
    }
  }

  /** Among receipts added together, removing one by its local id keeps all
      the others. */
  lemma RemoveNewKeepsOthers(files: seq<FileRef>, now: nat, k: nat)
    requires k < |Accepted(files, now)|
    ensures Accepted(files, now)[k].localId.Some?
    ensures var rs := Accepted(files, now);
      forall l :: 0 <= l < |rs| && l != k ==> rs[l] in DropReceipts(rs, rs[k].localId.value, false)
    ensures Accepted(files, now)[k] !in DropReceipts(Accepted(files, now), Accepted(files, now)[k].localId.value, false)
  {
    var rs := Accepted(files, now);
    AcceptedSpec(files, now);
    DropReceiptsMembers(rs, rs[k].localId.value, false);
    forall l | 0 <= l < |rs| && l != k
      ensures rs[l] in DropReceipts(rs, rs[k].localId.value, false)
    {
      if l < k {
        assert rs[l].localId != rs[k].localId;
      } else {
        assert rs[k].localId != rs[l].localId;
      }
    }
  }

  // ---------------------------------------------------------------------------
  // handleSubmit

  /** The checks before sending, first failure wins. `amountValue` is the
      number the amount text parses to, `None` when it is not a number. */
  function SubmitProblem(f: FormData, amountValue: Option<real>): Option<string>
  {
    if Blank(f.subject) then Some("Please enter subject")
    else if Blank(f.merchant) then Some("Please enter merchant")
    else if f.amount == "" || amountValue.None? || amountValue.value <= 0.0 then Some("Please enter valid amount")
    else if f.category == "" then Some("Please select category")
    else None
  }

  /** One entry of the multipart body. */
  datatype Part = TextPart(key: string, value: string) | FilePart(key: string, file: FileRef)

  /** The picked files among the receipts, in order. */
  function FileParts(rs: seq<FormReceipt>): seq<Part>
    decreases |rs|
  {
    if rs == [] then []
    else (if rs[0].file.Some? then [FilePart("receipts", rs[0].file.value)] else []) + FileParts(rs[1..])
  }

  /** The multipart body, in the order of the form's keys: the text fields,
      the picked files under `receipts`, then the removed ids as JSON text. */
  function Payload(f: FormData): seq<Part>
  {
    [TextPart("subject", f.subject), TextPart("merchant", f.merchant), TextPart("amount", f.amount),
     TextPart("type", f.txType), TextPart("date", f.date), TextPart("category", f.category),
     TextPart("description", f.description)]
    + FileParts(f.receipts)
    + [TextPart("removedReceipts", Json.StringifyStrings(f.removedReceipts))]
  }

  /** Exactly the files the receipts carry are uploaded, in order, each under
      `receipts`. */
  lemma {:induction false} FilePartsSpec(rs: seq<FormReceipt>)
    ensures |FileParts(rs)| <= |rs|
    ensures |FileParts(rs)| == |PickedFiles(rs)|
    ensures forall i :: 0 <= i < |FileParts(rs)| ==> FileParts(rs)[i] == FilePart("receipts", PickedFiles(rs)[i])
    ensures forall p :: p in FileParts(rs) ==>
      (p.FilePart? && p.key == "receipts" && exists r :: r in rs && r.file == Some(p.file))
    decreases |rs|
  {
    if rs != [] {
      FilePartsSpec(rs[1..]);
      var h := if rs[0].file.Some? then [FilePart("receipts", rs[0].file.value)] else [];
      var g := if rs[0].file.Some? then [rs[0].file.value] else [];
      assert FileParts(rs) == h + FileParts(rs[1..]);
      assert PickedFiles(rs) == g + PickedFiles(rs[1..]);
      forall i | 0 <= i < |FileParts(rs)| ensures FileParts(rs)[i] == FilePart("receipts", PickedFiles(rs)[i]) {
        if i >= |h| {
          assert FileParts(rs)[i] == FileParts(rs[1..])[i - |h|];
          assert PickedFiles(rs)[i] == PickedFiles(rs[1..])[i - |g|];
        }
      }
      forall p | p in FileParts(rs)
        ensures p.FilePart? && p.key == "receipts" && exists r :: r in rs && r.file == Some(p.file)
      {
        if p !in FileParts(rs[1..]) {
          assert rs[0].file == Some(p.file);
        } else {
          var r :| r in rs[1..] && r.file == Some(p.file);
          assert r in rs;
        }
      }
    }
  }

  /** What the server receives for the form: the text fields as they are, the
      amount and date as the server parses them, and `removedReceipts` as a
      string. */
  function ServerBody(f: FormData, amountValue: Option<real>, dateValue: Option<int>): TS.Body
  {
    TS.Body(Some(f.subject), Some(f.merchant), amountValue, Some(f.txType), dateValue, Some(f.category),
            Some(f.description), Some(Json.JString(Json.StringifyStrings(f.removedReceipts))), None)
  }

  /** A form that passes its own checks, with a type from the select and a
      date the server can read, passes the server's create checks; the
      removed ids reach the server's update as exactly those ids. */
  lemma FormChecksImplyServerChecks(f: FormData, amountValue: Option<real>, dateValue: Option<int>)
    requires SubmitProblem(f, amountValue).None? && KnownType(f.txType) && dateValue.Some?
    ensures TS.CreateProblem(ServerBody(f, amountValue, dateValue)).None?
    ensures TS.RemovalIds(TS.RemovalField(ServerBody(f, amountValue, dateValue))) == Some(Json.Strings(f.removedReceipts))
  {
    assert Trim("") == "";
    TS.FormRemovalRoundTrip(f.removedReceipts, []);
  }

  /** The form does not check the date: whatever the date field holds, the
      form's checks answer the same, so a form that passes with its date
      emptied is sent and the server refuses it as a missing field. */
  lemma DateUncheckedByForm(f: FormData, amountValue: Option<real>, d: string)
    ensures SubmitProblem(f.(date := d), amountValue) == SubmitProblem(f, amountValue)
    ensures SubmitProblem(f, amountValue).None? ==>
      TS.CreateProblem(ServerBody(f.(date := ""), amountValue, None)) == Some("Missing required fields")
  {
  }

  /** The requests the form sends. */
  datatype Request = CreateRequest(parts: seq<Part>) | UpdateRequest(id: string, parts: seq<Part>)

  /** A transaction as the server returns it for editing. */
  datatype ServerReceipt = ServerReceipt(id: string, name: string, size: real)

  datatype LoadedTx = LoadedTx(
    subject: string,
    merchant: string,
    amount: string,
    txType: Option<string>,
    day: Option<string>,
    category: string,
    description: Option<string>,
    receipts: Option<seq<ServerReceipt>>)

  function FromServer(rs: seq<ServerReceipt>): (out: seq<FormReceipt>)
    ensures |out| == |rs|
    ensures forall k :: 0 <= k < |rs| ==>
      out[k].mongoId == Some(rs[k].id) && out[k].localId.None? && out[k].file.None? && out[k].name == rs[k].name
    decreases |rs|
  {
    if rs == [] then []
    else [FormReceipt(Some(rs[0].id), None, rs[0].name, rs[0].size, None)] + FromServer(rs[1..])
  }

  // ---------------------------------------------------------------------------
  // the form

  class TransactionForm {
    var form: FormData
    var editId: Option<string>

    /** The type is one the select offers, and every picked file is within
        the server's upload limit. */
    predicate Valid()
      reads this
    {
      && KnownType(form.txType)
      && forall k :: 0 <= k < |form.receipts| ==>
           form.receipts[k].file.Some? ==> Upload.WithinLimit(form.receipts[k].file.value.size)
    }

    constructor(today: string)
      ensures form == InitialForm(today) && editId == None && Valid()
    {
      form := InitialForm(today);
      editId := None;
    }

    /** The page was opened to edit `stateEditId` when that is non-empty. */
    method Open(stateEditId: Option<string>)
      modifies this
      ensures form == old(form)
      ensures editId == if Truthy(stateEditId) then stateEditId else old(editId)
    {
      if Truthy(stateEditId) {
        editId := stateEditId;
      }
    }

    /** `loadTransaction`: when editing, the server's fields replace the
        form's; a missing type becomes debit, missing receipts none, a
        missing description empty, a missing date keeps the form's. */
    method Load(data: LoadedTx)
      requires Valid()
      requires data.txType.Some? ==> KnownType(data.txType.value) || data.txType.value == ""
      modifies this
      ensures Valid() && editId == old(editId)
      ensures !Truthy(old(editId)) ==> form == old(form)
      ensures Truthy(old(editId)) ==> form == old(form).(
        subject := data.subject, merchant := data.merchant, amount := data.amount,
        txType := if Truthy(data.txType) then data.txType.value else "debit",
        date := if Truthy(data.day) then data.day.value else old(form).date,
        category := data.category,
        description := if Truthy(data.description) then data.description.value else "",
        receipts := if data.receipts.Some? then FromServer(data.receipts.value) else [])
    {
      if !Truthy(editId) {
        return;
      }
      form := form.(
        subject := data.subject, merchant := data.merchant, amount := data.amount,
        txType := if Truthy(data.txType) then data.txType.value else "debit",
        date := if Truthy(data.day) then data.day.value else form.date,
        category := data.category,
        description := if Truthy(data.description) then data.description.value else "",
        receipts := if data.receipts.Some? then FromServer(data.receipts.value) else []);
    }

    /** `handleChange`; the type select offers debit and credit only. */
    method Change(field: Field, value: string)
      requires Valid() && (field == Kind ==> KnownType(value))
      modifies this
      ensures Valid() && editId == old(editId)
      ensures form == WithField(old(form), field, value)
    {
      form := WithField(form, field, value);
    }

    /** `handleFileChange`: the files within 5 MB are added, in order. */
    method AddFiles(files: seq<FileRef>, now: nat)
      requires Valid()
      modifies this
      ensures Valid() && editId == old(editId)
      ensures form == old(form).(receipts := old(form).receipts + Accepted(files, now))
    {
      if |files| == 0 {
        return;
      }
      var added: seq<FormReceipt> := [];
      var i := 0;
      while i < |files|
        invariant 0 <= i <= |files|
        invariant added == Accepted(files[..i], now)
        invariant form == old(form) && editId == old(editId)
      {
        AcceptedStep(files, now, i);
        if files[i].size > Upload.MaxFileSize {
          // skipped, with an error message
        } else {
          added := added + [ReceiptFor(files[i], now, i)];
        }
        i := i + 1;
      }
      assert files[..i] == files;
      AcceptedWithinLimit(files, now);
      if |added| > 0 {
        form := form.(receipts := form.receipts + added);
      } else {
        assert form.receipts + added == form.receipts;
      }
    }

    /** `handleRemoveReceipt`: an existing receipt's id is also recorded for
        the server to remove. */
    method RemoveReceipt(id: string, existing: bool)
      requires Valid()
      modifies this
      ensures Valid() && editId == old(editId)
      ensures existing ==> form == old(form).(
        removedReceipts := old(form).removedReceipts + [id],
        receipts := DropReceipts(old(form).receipts, id, true))
      ensures !existing ==> form == old(form).(receipts := DropReceipts(old(form).receipts, id, false))
    {
      DropReceiptsMembers(form.receipts, id, existing);
      var kept := DropReceipts(form.receipts, id, existing);
      assert forall k :: 0 <= k < |kept| ==> kept[k] in form.receipts;
      if existing {
        form := form.(removedReceipts := form.removedReceipts + [id], receipts := kept);
      } else {
        form := form.(receipts := kept);
      }
    }

    /** `handleSubmit`: a failed check gives its message and sends nothing;
        otherwise the payload is sent as an update when editing, else as a
        create. When the server accepts, the form is reset to today's empty
        form, editing ends and the page moves to the list; when it refuses,
        the form stays as it was and the server's message is shown, else the
        thrown error's own message, else a default. */
    method Submit(amountValue: Option<real>, accepted: bool, serverMessage: Option<string>,
                  errorMessage: Option<string>, today: string)
      returns (message: Option<string>, request: Option<Request>, navigateTo: Option<string>)
      requires Valid()
      modifies this
      ensures Valid()
      ensures SubmitProblem(old(form), amountValue).Some? ==>
        message == SubmitProblem(old(form), amountValue) && request.None? && navigateTo.None?
        && form == old(form) && editId == old(editId)
      ensures SubmitProblem(old(form), amountValue).None? ==>
        && request == Some(if Truthy(old(editId)) then UpdateRequest(old(editId).value, Payload(old(form)))
                           else CreateRequest(Payload(old(form))))
        && (accepted ==> message.None? && form == InitialForm(today) && editId.None?
                         && navigateTo == Some("/Transactions"))
        && (!accepted ==> form == old(form) && editId == old(editId) && navigateTo.None?
                          && message == Some(if Truthy(serverMessage) then serverMessage.value
                                             else if Truthy(errorMessage) then errorMessage.value
                                             else "Error processing transaction"))
    {
      var problem := SubmitProblem(form, amountValue);
      if problem.Some? {
        return problem, None, None;
      }
      var parts := Payload(form);
      if Truthy(editId) {
        request := Some(UpdateRequest(editId.value, parts));
      } else {
        request := Some(CreateRequest(parts));
      }
      if !accepted {
        message := Some(if Truthy(serverMessage) then serverMessage.value
                        else if Truthy(errorMessage) then errorMessage.value
                        else "Error processing transaction");
        navigateTo := None;
        return;
      }
      form := InitialForm(today);
      editId := None;
      message := None;
      navigateTo := Some("/Transactions");
    }
  }

  /** Every file the form uploads is within the server's limit, so the upload
      middleware never refuses a request the form sends. */
  lemma PayloadFilesWithinLimit(f: FormData)
    requires forall k :: 0 <= k < |f.receipts| ==>
      f.receipts[k].file.Some? ==> Upload.WithinLimit(f.receipts[k].file.value.size)
    ensures forall p :: p in Payload(f) && p.FilePart? ==> Upload.WithinLimit(p.file.size)
  {
    FilePartsSpec(f.receipts);
    PayloadFilesFromReceipts(f);
    forall p | p in Payload(f) && p.FilePart?
      ensures Upload.WithinLimit(p.file.size)
    {
      var r :| r in f.receipts && r.file == Some(p.file);
      var k :| 0 <= k < |f.receipts| && f.receipts[k] == r;
    }
  }

  /** The only file entries of the body are those built from the receipts. */
  lemma PayloadFilesFromReceipts(f: FormData)
    ensures forall p :: p in Payload(f) && p.FilePart? ==> p in FileParts(f.receipts)
  {
    var texts := [TextPart("subject", f.subject), TextPart("merchant", f.merchant), TextPart("amount", f.amount),
     TextPart("type", f.txType), TextPart("date", f.date), TextPart("category", f.category),
     TextPart("description", f.description)];
    var last := [TextPart("removedReceipts", Json.StringifyStrings(f.removedReceipts))];
    assert Payload(f) == texts + FileParts(f.receipts) + last;
    forall p | p in Payload(f) && p.FilePart? ensures p in FileParts(f.receipts) {
      assert p !in texts && p !in last;
    }
  }
}
