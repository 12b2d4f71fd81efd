/** The transaction list page (frontend/src/pages/Transactions.jsx): row ids,
    deleting a row after the server's reply, the receipt download link and
    the size column. */
module TransactionsPage {
  import opened Common
  import opened Ledger

  /** `api.defaults.baseURL` as configured in frontend/src/services/api.js. */
  const ApiBase: string := "http://localhost:3000/api"

  /** The server used when the base URL is missing or empty. */
  const DefaultServer: string := "http://localhost:3000"

  /** `t._id || t.id`: the row id, the stored id when it is non-empty. */
  function RowId(t: ClientTx): (id: Option<string>)
    ensures Truthy(t.mongoId) ==> id == t.mongoId
    ensures !Truthy(t.mongoId) ==> id == t.localId
  {
    if Truthy(t.mongoId) then t.mongoId else t.localId
  }

  /** `transactions.find(t => t._id === index || t.id === index)` */
  function FindRow(txs: seq<ClientTx>, index: string): (r: Option<nat>)
    ensures r.Some? ==> r.value < |txs| && (txs[r.value].mongoId == Some(index) || txs[r.value].localId == Some(index))
    ensures r.Some? ==> forall j :: 0 <= j < r.value ==> txs[j].mongoId != Some(index) && txs[j].localId != Some(index)
    ensures r.None? ==> forall j :: 0 <= j < |txs| ==> txs[j].mongoId != Some(index) && txs[j].localId != Some(index)
    decreases |txs|
  {
    if txs == [] then None
    else if txs[0].mongoId == Some(index) || txs[0].localId == Some(index) then Some(0)
    else match FindRow(txs[1..], index)
      case None => None
      case Some(k) => Some(k + 1)
  }

  /** The rows whose id differs from `id`, in their order. */
  function Without(txs: seq<ClientTx>, id: Option<string>): seq<ClientTx>
    decreases |txs|
  {
    if txs == [] then []
    else (if RowId(txs[0]) != id then [txs[0]] else []) + Without(txs[1..], id)
  }

  /** Filtering keeps exactly the rows with another id. */
  lemma {:induction false} WithoutMembers(txs: seq<ClientTx>, id: Option<string>)
    ensures forall t :: t in Without(txs, id) <==> t in txs && RowId(t) != id
    decreases |txs|
  {
    if txs != [] {
      WithoutMembers(txs[1..], id);
      assert txs == [txs[0]] + txs[1..];
    }
  }

  /** Filtering distributes over concatenation, so the kept rows keep their
      order. */
  lemma {:induction false} WithoutAppend(a: seq<ClientTx>, b: seq<ClientTx>, id: Option<string>)
    ensures Without(a + b, id) == Without(a, id) + Without(b, id)
    decreases |a|
  {
    if a == [] {
      assert a + b == b;
    } else {
      assert (a + b)[0] == a[0];
      assert (a + b)[1..] == a[1..] + b;
      WithoutAppend(a[1..], b, id);
    }
  }

  /** Filtering never lengthens the list, drops at least one row when some
      row has the id, and changes nothing when none has it. */
  lemma {:induction false} WithoutLength(txs: seq<ClientTx>, id: Option<string>, j: nat)
    ensures |Without(txs, id)| <= |txs|
    ensures j < |txs| && RowId(txs[j]) == id ==> |Without(txs, id)| < |txs|
    ensures (forall k :: 0 <= k < |txs| ==> RowId(txs[k]) != id) ==> Without(txs, id) == txs
    decreases |txs|
  {
    if txs != [] {
      WithoutLength(txs[1..], id, if j > 0 then j - 1 else 0);
      if j > 0 && j < |txs| {
        assert txs[1..][j - 1] == txs[j];
      }
      if forall k :: 0 <= k < |txs| ==> RowId(txs[k]) != id {
        assert forall k :: 0 <= k < |txs[1..]| ==> RowId(txs[1..][k]) != id by {
          forall k | 0 <= k < |txs[1..]| ensures RowId(txs[1..][k]) != id {
            assert txs[1..][k] == txs[k + 1];
          }
        }
        assert txs == [txs[0]] + txs[1..];
      }
    }
  }

  /** What the delete request gave back: a reply body with its optional
      `message`, or a thrown error (a non-2xx status or no connection). */
  datatype DeleteReply = Replied(message: Option<string>) | Threw

  /** The message of a successful delete. */
  const DeletedMessage: string := "Transaction deleted successfully"

  /** What `handleDelete` captures when it shows the confirmation toast: the
      list as it is at that moment and the row found in it. The toast's
      action works on these, not on the list current when it is clicked. */
  datatype PendingDelete = PendingDelete(snapshot: seq<ClientTx>, row: Option<ClientTx>)

  class TransactionList {
    var transactions: seq<ClientTx>

    constructor(loaded: seq<ClientTx>)
      ensures transactions == loaded
    {
      transactions := loaded;
    }

    /** `handleDelete(index)`: looks the row up and captures the current
        list for the toast's action. */
    function RequestDelete(index: string): (p: PendingDelete)
      reads this
      ensures p.snapshot == transactions
      ensures p.row.Some? ==>
        p.row.value in transactions && (p.row.value.mongoId == Some(index) || p.row.value.localId == Some(index))
      ensures p.row.None? ==>
        forall t :: t in transactions ==> t.mongoId != Some(index) && t.localId != Some(index)
    {
      var found := FindRow(transactions, index);
      PendingDelete(transactions, if found.Some? then Some(transactions[found.value]) else None)
    }

    /** The toast's Delete action for a captured request: a reply whose
        message includes "Error", a thrown error, or a row that was not
        there (its id is then read from `undefined`, which throws) leaves the
        list as it is; otherwise the list becomes the CAPTURED list without
        the rows of that id, whatever happened to the list in between. */
    method ConfirmDelete(p: PendingDelete, reply: DeleteReply) returns (removed: bool)
      modifies this
      ensures if p.row.None? || reply.Threw? || (reply.message.Some? && Contains(reply.message.value, "Error"))
        then !removed && transactions == old(transactions)
        else removed && transactions == Without(p.snapshot, RowId(p.row.value))
    {
      if p.row.None? || reply.Threw? {
        return false;
      }
      if reply.message.Some? && Contains(reply.message.value, "Error") {
        return false;
      }
      transactions := Without(p.snapshot, RowId(p.row.value));
      removed := true;
    }
  }

  /** Two deletes requested before either is confirmed: confirming the
      second sets the list to its own snapshot without its row, so a row the
      first confirmation removed comes back. */
  lemma StaleSnapshotRestoresRow(txs: seq<ClientTx>, first: ClientTx, second: ClientTx)
    requires first in txs && second in txs && RowId(first) != RowId(second)
    ensures first !in Without(txs, RowId(first))
    ensures first in Without(txs, RowId(second)) && second !in Without(txs, RowId(second))
  {
    WithoutMembers(txs, RowId(first));
    WithoutMembers(txs, RowId(second));
  }

  lemma NoErrorInDeletedMessage()
    ensures !Contains(DeletedMessage, "Error")
  {
    NotContains(DeletedMessage, "Error");
  }

  /** The server's success reply removes the row, and the list then holds no
      row with its id and is shorter. */
  lemma SuccessfulDeleteRemovesRow(txs: seq<ClientTx>, index: string)
    requires FindRow(txs, index).Some?
    ensures !Contains(DeletedMessage, "Error")
    ensures var id := RowId(txs[FindRow(txs, index).value]);
      |Without(txs, id)| < |txs| && forall t :: t in Without(txs, id) ==> RowId(t) != id
  {
    NoErrorInDeletedMessage();
    var i := FindRow(txs, index).value;
    WithoutMembers(txs, RowId(txs[i]));
    WithoutLength(txs, RowId(txs[i]), i);
  }

  // ---------------------------------------------------------------------------
  // receipts

  datatype PageReceipt = PageReceipt(
    mongoId: Option<string>,
    localId: Option<string>,
    name: Option<string>,
    size: Option<real>)

  predicate EndsWith(s: string, suffix: string)
  {
    |suffix| <= |s| && s[|s| - |suffix|..] == suffix
  }

  /** `baseURL?.replace(/\/api$/, "") || "http://localhost:3000"` */
  function ServerBase(baseUrl: Option<string>): (b: string)
    ensures baseUrl.Some? && EndsWith(baseUrl.value, "/api") && |baseUrl.value| > 4 ==>
      b == baseUrl.value[..|baseUrl.value| - 4]
    ensures baseUrl.Some? && baseUrl.value != "" && !EndsWith(baseUrl.value, "/api") ==>
      b == baseUrl.value
    ensures baseUrl == Some("/api") ==> b == DefaultServer
    ensures !Truthy(baseUrl) ==> b == DefaultServer
    ensures b != ""
  {
    if baseUrl.None? then DefaultServer
    else
      var stripped := if EndsWith(baseUrl.value, "/api") then baseUrl.value[..|baseUrl.value| - 4] else baseUrl.value;
      if stripped == "" then DefaultServer else stripped
  }

  /** A template literal renders an absent value as "undefined". */
  function Interpolate(o: Option<string>): string
  {
    if o.Some? then o.value else "undefined"
  }

  /** The download link for a receipt of a transaction. */
  function DownloadUrl(baseUrl: Option<string>, transactionId: string, r: PageReceipt): string
  {
    ServerBase(baseUrl) + "/api/transactions/" + transactionId + "/receipt/"
      + Interpolate(if Truthy(r.mongoId) then r.mongoId else r.localId)
  }

  /** `receipt.name || "receipt"` */
  function DownloadName(r: PageReceipt): (n: string)
    ensures n != ""
    ensures Truthy(r.name) ==> n == r.name.value
  {
    if Truthy(r.name) then r.name.value else "receipt"
  }

  /** With the configured base, the link's path splits into the pieces of the
      server's `/:id/receipt/:receiptId` route under `/api/transactions`, and
      the two ids read back unchanged. */
  lemma DownloadUrlRoute(transactionId: string, r: PageReceipt)
    requires Truthy(r.mongoId) && '/' !in r.mongoId.value && '/' !in transactionId
    ensures Split(DownloadUrl(Some(ApiBase), transactionId, r), "/")
      == ["http:", "", "localhost:3000", "api", "transactions", transactionId, "receipt", r.mongoId.value]
  {
    var rid := r.mongoId.value;
    var route := transactionId + "/" + ("receipt" + "/" + rid);
    RoutePath(transactionId, rid);
    ServerPath(route);
    UrlPieces(transactionId, rid);
  }

  /** `:id/receipt/:receiptId` splits into its three pieces. */
  lemma RoutePath(transactionId: string, rid: string)
    requires '/' !in rid && '/' !in transactionId
    ensures Split(transactionId + "/" + ("receipt" + "/" + rid), "/") == [transactionId, "receipt", rid]
  {
    SplitWithout(rid, "/");
    SplitAtFirst("receipt", "/", rid);
    SplitAtFirst(transactionId, "/", "receipt" + "/" + rid);
  }

  /** The link's fixed head: the server and the transactions path. */
  const LinkHead: string := "http:" + "/" + ("" + "/" + ("localhost:3000" + "/" + ("api" + "/" + ("transactions" + "/"))))

  /** The fixed head of the link splits into its five pieces. */
  lemma ServerPath(rest: string)
    ensures Split(LinkHead + rest, "/") == ["http:", "", "localhost:3000", "api", "transactions"] + Split(rest, "/")
  {
    LinkHeadPieces(rest);
    HeadSplit(rest);
  }

  lemma LinkHeadPieces(rest: string)
    ensures LinkHead + rest
      == "http:" + "/" + ("" + "/" + ("localhost:3000" + "/" + ("api" + "/" + ("transactions" + "/" + rest))))
  {
    var a, b, c, d, t := "http:" + "/", "" + "/", "localhost:3000" + "/", "api" + "/", "transactions" + "/";
    Regroup(a, b + (c + (d + t)), rest);
    Regroup(b, c + (d + t), rest);
    Regroup(c, d + t, rest);
    Regroup(d, t, rest);
  }

  lemma Regroup(x: string, y: string, z: string)
    ensures (x + y) + z == x + (y + z)
  {
  }

  lemma HeadSplit(rest: string)
    ensures Split("http:" + "/" + ("" + "/" + ("localhost:3000" + "/" + ("api" + "/" + ("transactions" + "/" + rest)))), "/")
      == ["http:", "", "localhost:3000", "api", "transactions"] + Split(rest, "/")
  {
    var p2 := "localhost:3000" + "/" + ("api" + "/" + ("transactions" + "/" + rest));
    var p1 := "" + "/" + p2;
    HostSplit(rest);
    SplitAtFirst("", "/", p2);
    SplitAtFirst("http:", "/", p1);
    assert ["http:"] + ([""] + (["localhost:3000", "api", "transactions"] + Split(rest, "/")))
      == ["http:", "", "localhost:3000", "api", "transactions"] + Split(rest, "/");
  }

  lemma HostSplit(rest: string)
    ensures Split("localhost:3000" + "/" + ("api" + "/" + ("transactions" + "/" + rest)), "/")
      == ["localhost:3000", "api", "transactions"] + Split(rest, "/")
  {
    var p4 := "transactions" + "/" + rest;
    var p3 := "api" + "/" + p4;
    SplitAtFirst("transactions", "/", rest);
    SplitAtFirst("api", "/", p4);
    SplitAtFirst("localhost:3000", "/", p3);
    assert ["localhost:3000"] + (["api"] + (["transactions"] + Split(rest, "/")))
      == ["localhost:3000", "api", "transactions"] + Split(rest, "/");
  }

  /** The configured base with "/api" stripped is the server's address. */
  lemma ApiServer()
    ensures ServerBase(Some(ApiBase)) == "http://localhost:3000"
  {
    assert EndsWith(ApiBase, "/api");
    assert ApiBase[..|ApiBase| - 4] == "http://localhost:3000";
  }

  lemma HostHead()
    ensures "http://localhost:3000" + "/api/transactions/" == LinkHead
  {
    var a, b, c := "http:" + "/", "" + "/", "localhost:3000";
    var z := "api" + "/" + ("transactions" + "/");
    assert "http://localhost:3000" == a + (b + c);
    assert "/api/transactions/" == "/" + z;
    Regroup(a, b + c, "/" + z);
    Regroup(b, c, "/" + z);
    Regroup(c, "/", z);
  }

  lemma UrlPieces(transactionId: string, rid: string)
    ensures ServerBase(Some(ApiBase)) + "/api/transactions/" + transactionId + "/receipt/" + rid
      == LinkHead + (transactionId + "/" + ("receipt" + "/" + rid))
  {
    ApiServer();
    HostHead();
    var t, rs := transactionId, "receipt" + "/";
    assert "/receipt/" == "/" + rs;
    Regroup(LinkHead, t, "/" + rs);
    Regroup(LinkHead, t + ("/" + rs), rid);
    Regroup(t, "/" + rs, rid);
    Regroup("/", rs, rid);
    Regroup(t, "/", rs + rid);
  }

  /** The size column: bytes below 1 KB, kilobytes below 1 MB, megabytes
      otherwise (the two-decimal rendering is not modelled). */
  datatype SizeText = Bytes(b: real) | KiloBytes(kb: real) | MegaBytes(mb: real)

  /** `formatSize`: a missing or non-numeric size counts as 0 bytes. */
  function FormatSize(size: Option<real>): (t: SizeText)
    ensures var bytes := if size.Some? then size.value else 0.0;
      && (t.Bytes? <==> bytes < 1024.0)
      && (t.Bytes? ==> t.b == bytes)
      && (t.KiloBytes? ==> 1.0 <= t.kb < 1024.0 && t.kb * 1024.0 == bytes)
      && (t.MegaBytes? ==> 1.0 <= t.mb && t.mb * 1024.0 * 1024.0 == bytes)
  {
    var bytes := if size.Some? then size.value else 0.0;
    if bytes < 1024.0 then Bytes(bytes)
    else
      var kb := bytes / 1024.0;
      if kb < 1024.0 then KiloBytes(kb)
      else MegaBytes(kb / 1024.0)
  }
}
