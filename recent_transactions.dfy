/** The dashboard's recent-transactions table
    (frontend/src/components/DashboardRecentTransaction.jsx): a copy of the
    list ordered by date, newest first, cut to five rows; each row shows a
    sign and the date as day/month/year. Dates are milliseconds since the
    epoch. */
module RecentTransactions {
  import opened Common
  import opened Ledger
  import opened Sorting

  /** The number of rows shown. */
  const RecentCount: nat := 5

  function DateKey(t: ClientTx): int
  {
    t.date
  }

  /** The rows shown: the five newest transactions, newest first; ties keep
      their order in the list. */
  function Recent(txs: seq<ClientTx>): seq<ClientTx>
  {
    var sorted := SortDesc(txs, DateKey);
    SortDescPermutation(txs, DateKey);
    assert |sorted| == |multiset(sorted)| == |txs|;
    if |sorted| <= RecentCount then sorted else sorted[..RecentCount]
  }

  /** The table holds min(5, n) rows, newest first, all taken from the list,
      and no transaction left out is newer than one shown. */
  lemma RecentSpec(txs: seq<ClientTx>)
    ensures |Recent(txs)| == if |txs| <= RecentCount then |txs| else RecentCount
    ensures SortedDesc(Recent(txs), DateKey)
    ensures multiset(Recent(txs)) <= multiset(txs)
    ensures forall x, i :: x in multiset(txs) - multiset(Recent(txs)) && 0 <= i < |Recent(txs)| ==>
      x.date <= Recent(txs)[i].date
  {
    var s := SortDesc(txs, DateKey);
    SortDescSorted(txs, DateKey);
    SortDescPermutation(txs, DateKey);
    assert |s| == |multiset(s)| == |txs|;
    var k := if |s| <= RecentCount then |s| else RecentCount;
    assert Recent(txs) == s[..k];
    PrefixDominates(s, k);
  }

  /** In a list ordered newest first, a prefix holds only items from the list,
      and nothing after it is newer than anything in it. */
  lemma PrefixDominates(s: seq<ClientTx>, k: nat)
    requires SortedDesc(s, DateKey) && k <= |s|
    ensures SortedDesc(s[..k], DateKey)
    ensures multiset(s[..k]) <= multiset(s)
    ensures forall x, i :: x in multiset(s) - multiset(s[..k]) && 0 <= i < k ==> x.date <= s[i].date
  {
    MultisetSplit(s, k);
    SortedSplit(s, k, DateKey);
    forall x, i | x in multiset(s[k..]) && 0 <= i < k
      ensures x.date <= s[i].date
    {
      var rest := s[k..];
      assert x in rest;
      var j :| 0 <= j < |rest| && rest[j] == x;
      assert DateKey(s[i]) >= DateKey(rest[j]);
    }
  }

  /** A sorted list's prefix is sorted and dominates what follows it. */
  lemma SortedSplit<T>(s: seq<T>, k: nat, key: T -> int)
    requires SortedDesc(s, key) && k <= |s|
    ensures SortedDesc(s[..k], key)
    ensures forall i, j :: 0 <= i < k && 0 <= j < |s[k..]| ==> key(s[i]) >= key(s[k..][j])
  {
    forall i, j | 0 <= i < k && 0 <= j < |s[k..]| ensures key(s[i]) >= key(s[k..][j]) {
      assert s[k..][j] == s[k + j];
    }
  }

  lemma MultisetSplit<T>(s: seq<T>, k: nat)
    requires k <= |s|
    ensures multiset(s[..k]) <= multiset(s)
    ensures multiset(s) - multiset(s[..k]) == multiset(s[k..])
  {
    assert s == s[..k] + s[k..];
  }

  /** A list already in date order shows its first five entries. */
  lemma RecentOfSorted(txs: seq<ClientTx>)
    requires SortedDesc(txs, DateKey) && |txs| >= RecentCount
    ensures Recent(txs) == txs[..RecentCount]
  {
    SortDescKeepsSorted(txs, DateKey);
  }

  /** The sign before the amount: "+" for a credit, "-" for everything else,
      including a transaction without a type. */
  function Sign(t: ClientTx): (s: string)
    ensures s == "+" <==> IsCredit(t)
    ensures s == "+" || s == "-"
    ensures !Truthy(t.txType) ==> s == "-"
  {
    if EffectiveType(t) == "credit" then "+" else "-"
  }

  function Reverse(s: seq<string>): (r: seq<string>)
    ensures |r| == |s|
    decreases |s|
  {
    if s == [] then [] else Reverse(s[1..]) + [s[0]]
  }

  /** The date column: the day part of the ISO text (before "T"), its
      `-`-separated pieces reversed and joined with "/". */
  function DisplayDate(iso: string): string
  {
    Join(Reverse(Split(Split(iso, "T")[0], "-")), "/")
  }

  /** An ISO timestamp `yyyy-mm-ddT...` is shown as `dd/mm/yyyy`. */
  lemma DisplayDateOf(year: string, month: string, day: string, time: string)
    requires '-' !in year && '-' !in month && '-' !in day
    requires 'T' !in year && 'T' !in month && 'T' !in day
    ensures DisplayDate(year + "-" + month + "-" + day + "T" + time) == day + "/" + month + "/" + year
  {
    var ymd := year + "-" + month + "-" + day;
    assert 'T' !in ymd by {
      forall k | 0 <= k < |ymd| ensures ymd[k] != 'T' {
        if k < |year| {
          assert ymd[k] == year[k];
        } else if k == |year| {
        } else if k < |year| + 1 + |month| {
          assert ymd[k] == month[k - |year| - 1];
        } else if k == |year| + 1 + |month| {
        } else {
          assert ymd[k] == day[k - |year| - 2 - |month|];
        }
      }
    }
    SplitAtFirst(ymd, "T", time);
    assert ymd == year + "-" + (month + "-" + day);
    SplitAtFirst(year, "-", month + "-" + day);
    SplitAtFirst(month, "-", day);
    SplitWithout(day, "-");
    assert Split(ymd, "-") == [year, month, day];
    assert Reverse([year, month, day]) == [day, month, year] by {
      assert [day][1..] == [];
      assert Reverse([day]) == [day];
      assert [month, day][1..] == [day];
      assert Reverse([month, day]) == [day, month];
      assert [year, month, day][1..] == [month, day];
    }
    assert Join([day, month, year], "/") == day + "/" + month + "/" + year by {
      JoinThree(day, month, year, "/");
    }
  }

  lemma JoinThree(a: string, b: string, c: string, sep: string)
    ensures Join([a, b, c], sep) == a + sep + b + sep + c
  {
    assert [b, c][1..] == [c];
    assert Join([b, c], sep) == b + sep + c;
    assert [a, b, c][1..] == [b, c];
  }
}
