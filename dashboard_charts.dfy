/** The two dashboard charts (frontend/src/components/DashboardCharts.jsx):
    expenses per category for the pie chart and per calendar month for the
    bar chart. Both walk the debits once and add `Math.abs(amount)` into a
    table; here the category table is a list of (label, amount) pairs in
    first-seen order (`Object.entries` lists integer-like keys first, which
    is not modelled), and the month table an array of twelve amounts,
    January first. */
module DashboardCharts {
  import opened Ledger

  /** Adds `v` to the entry labelled `key`, or appends a new entry for it. */
  function AddAmount(entries: seq<(string, real)>, key: string, v: real): seq<(string, real)>
    decreases |entries|
  {
    if entries == [] then [(key, v)]
    else if entries[0].0 == key then [(key, entries[0].1 + v)] + entries[1..]
    else [entries[0]] + AddAmount(entries[1..], key, v)
  }

  /** `categoryData`, entry by entry, after the given transactions. */
  function CategoryData(txs: seq<ClientTx>): seq<(string, real)>
    decreases |txs|
  {
    if txs == [] then []
    else
      var t := txs[|txs| - 1];
      if IsDebit(t) then AddAmount(CategoryData(txs[..|txs| - 1]), t.category, Abs(t.amount))
      else CategoryData(txs[..|txs| - 1])
  }

  /** `monthlyData` after the given transactions, January first. */
  function MonthlyData(txs: seq<ClientTx>): (m: seq<real>)
    ensures |m| == 12
    decreases |txs|
  {
    if txs == [] then seq(12, _ => 0.0)
    else
      var t := txs[|txs| - 1];
      var m := MonthlyData(txs[..|txs| - 1]);
      if IsDebit(t) then m[t.month := m[t.month] + Abs(t.amount)] else m
  }

  /** Builds the category table by walking the transactions in order. */
  method CategoryTotals(txs: seq<ClientTx>) returns (entries: seq<(string, real)>)
    ensures entries == CategoryData(txs)
    ensures forall k :: 0 <= k < |entries| ==> entries[k].1 == DebitSumIn(txs, entries[k].0)
  {
    entries := [];
    var i := 0;
    while i < |txs|
      invariant 0 <= i <= |txs|
      invariant entries == CategoryData(txs[..i])
    {
      assert txs[..i + 1][..i] == txs[..i];
      var t := txs[i];
      if IsDebit(t) {
        entries := AddAmount(entries, t.category, Abs(t.amount));
      }
      i := i + 1;
    }
    assert txs[..i] == txs;
    CategoryValues(txs);
  }

  /** Builds the month table: twelve zeros, then each debit added to its
      month. */
  method MonthlyTotals(txs: seq<ClientTx>) returns (months: array<real>)
    ensures fresh(months) && months.Length == 12
    ensures months[..] == MonthlyData(txs)
  {
    months := new real[12](_ => 0.0);
    assert months[..] == seq(12, _ => 0.0);
    var i := 0;
    while i < |txs|
      invariant 0 <= i <= |txs|
      invariant months[..] == MonthlyData(txs[..i])
    {
      assert txs[..i + 1][..i] == txs[..i];
      var t := txs[i];
      if IsDebit(t) {
        months[t.month] := months[t.month] + Abs(t.amount);
      }
      i := i + 1;
    }
    assert txs[..i] == txs;
  }

  // ---------------------------------------------------------------------------
  // sums

  function ValueSum(entries: seq<(string, real)>): real
    decreases |entries|
  {
    if entries == [] then 0.0 else entries[0].1 + ValueSum(entries[1..])
  }

  function Labels(entries: seq<(string, real)>): seq<string>
    decreases |entries|
  {
    if entries == [] then [] else [entries[0].0] + Labels(entries[1..])
  }

  function SumReals(s: seq<real>): real
    decreases |s|
  {
    if s == [] then 0.0 else s[0] + SumReals(s[1..])
  }

  /** Adding an amount adds it to the table's sum, and the labels gain `key`
      at the end unless it was already there. */
  lemma {:induction false} AddAmountSpec(entries: seq<(string, real)>, key: string, v: real)
    ensures ValueSum(AddAmount(entries, key, v)) == ValueSum(entries) + v
    ensures Labels(AddAmount(entries, key, v)) ==
      if key in Labels(entries) then Labels(entries) else Labels(entries) + [key]
    decreases |entries|
  {
    if entries != [] && entries[0].0 != key {
      AddAmountSpec(entries[1..], key, v);
    }
  }

  lemma {:induction false} SumRealsUpdate(s: seq<real>, i: nat, v: real)
    requires i < |s|
    ensures SumReals(s[i := s[i] + v]) == SumReals(s) + v
    decreases |s|
  {
    if i > 0 {
      SumRealsUpdate(s[1..], i - 1, v);
      assert s[i := s[i] + v][1..] == s[1..][i - 1 := s[1..][i - 1] + v];
    }
  }

  lemma {:induction false} SumRealsZeros(n: nat)
    ensures SumReals(seq(n, _ => 0.0)) == 0.0
  {
    if n > 0 {
      SumRealsZeros(n - 1);
      assert seq(n, _ => 0.0)[1..] == seq(n - 1, _ => 0.0);
    }
  }

  /** The pie chart's TOTAL and the sum of the twelve bars are both the debit
      total of the dashboard cards. */
  lemma ChartTotals(txs: seq<ClientTx>)
    ensures ValueSum(CategoryData(txs)) == DebitTotal(txs)
    ensures SumReals(MonthlyData(txs)) == DebitTotal(txs)
  {
    PieTotal(txs);
    BarTotal(txs);
  }

  lemma {:induction false} PieTotal(txs: seq<ClientTx>)
    ensures ValueSum(CategoryData(txs)) == DebitTotal(txs)
    decreases |txs|
  {
    if txs != [] {
      var t := txs[|txs| - 1];
      PieTotal(txs[..|txs| - 1]);
      if IsDebit(t) {
        AddAmountSpec(CategoryData(txs[..|txs| - 1]), t.category, Abs(t.amount));
      }
    }
  }

  lemma {:induction false} BarTotal(txs: seq<ClientTx>)
    ensures SumReals(MonthlyData(txs)) == DebitTotal(txs)
    decreases |txs|
  {
    if txs == [] {
      SumRealsZeros(12);
    } else {
      var t := txs[|txs| - 1];
      BarTotal(txs[..|txs| - 1]);
      if IsDebit(t) {
        SumRealsUpdate(MonthlyData(txs[..|txs| - 1]), t.month, Abs(t.amount));
      }
    }
  }

  // ---------------------------------------------------------------------------
  // which categories appear

  predicate HasDebitIn(txs: seq<ClientTx>, category: string)
  {
    exists j :: 0 <= j < |txs| && IsDebit(txs[j]) && txs[j].category == category
  }

  /** A category has a pie slice exactly when some debit carries it; each
      category has one slice at most. */
  lemma {:induction false} CategoryLabels(txs: seq<ClientTx>, category: string)
    ensures category in Labels(CategoryData(txs)) <==> HasDebitIn(txs, category)
    ensures NoDuplicates(Labels(CategoryData(txs)))
    decreases |txs|
  {
    if txs != [] {
      var prefix := txs[..|txs| - 1];
      var t := txs[|txs| - 1];
      var before := Labels(CategoryData(prefix));
      CategoryLabels(prefix, category);
      HasDebitInLast(txs, category);
      if IsDebit(t) {
        AddAmountSpec(CategoryData(prefix), t.category, Abs(t.amount));
        if t.category !in before {
          NoDuplicatesAppend(before, t.category);
        }
      }
    }
  }

  /** A debit with the category is in the list exactly when it is among the
      earlier transactions or is the last one. */
  lemma HasDebitInLast(txs: seq<ClientTx>, category: string)
    requires txs != []
    ensures HasDebitIn(txs, category) <==>
      HasDebitIn(txs[..|txs| - 1], category)
      || (IsDebit(txs[|txs| - 1]) && txs[|txs| - 1].category == category)
  {
    var prefix := txs[..|txs| - 1];
    if HasDebitIn(prefix, category) {
      var j :| 0 <= j < |prefix| && IsDebit(prefix[j]) && prefix[j].category == category;
      assert txs[j] == prefix[j];
    }
    if HasDebitIn(txs, category) {
      var j :| 0 <= j < |txs| && IsDebit(txs[j]) && txs[j].category == category;
      if j < |prefix| {
        assert prefix[j] == txs[j];
      }
    }
  }

  // ---------------------------------------------------------------------------
  // each slice's amount

  /** The absolute amounts of the debits in `category`, summed. */
  function DebitSumIn(txs: seq<ClientTx>, category: string): real
    decreases |txs|
  {
    if txs == [] then 0.0
    else
      var t := txs[|txs| - 1];
      DebitSumIn(txs[..|txs| - 1], category)
      + (if IsDebit(t) && t.category == category then Abs(t.amount) else 0.0)
  }

  /** The amount of the first entry labelled `key`, 0 when there is none. */
  function ValueOf(entries: seq<(string, real)>, key: string): real
    decreases |entries|
  {
    if entries == [] then 0.0
    else if entries[0].0 == key then entries[0].1
    else ValueOf(entries[1..], key)
  }

  /** Adding to one label changes that label's amount only. */
  lemma {:induction false} AddAmountValueOf(entries: seq<(string, real)>, key: string, v: real, c: string)
    ensures ValueOf(AddAmount(entries, key, v), c) == ValueOf(entries, c) + (if c == key then v else 0.0)
    decreases |entries|
  {
    if entries == [] {
      assert AddAmount(entries, key, v) == [(key, v)];
      assert [(key, v)][1..] == [];
    } else if entries[0].0 == key {
      var r := [(key, entries[0].1 + v)] + entries[1..];
      assert AddAmount(entries, key, v) == r;
      assert r[0] == (key, entries[0].1 + v) && r[1..] == entries[1..];
    } else {
      var r := [entries[0]] + AddAmount(entries[1..], key, v);
      assert AddAmount(entries, key, v) == r;
      assert r[0] == entries[0] && r[1..] == AddAmount(entries[1..], key, v);
      AddAmountValueOf(entries[1..], key, v, c);
    }
  }

  /** Looking a category up in the table gives its debits' absolute sum. */
  lemma {:induction false} CategoryValueOf(txs: seq<ClientTx>, c: string)
    ensures ValueOf(CategoryData(txs), c) == DebitSumIn(txs, c)
    decreases |txs|
  {
    if txs != [] {
      var prefix := txs[..|txs| - 1];
      var t := txs[|txs| - 1];
      CategoryValueOf(prefix, c);
      if IsDebit(t) {
        AddAmountValueOf(CategoryData(prefix), t.category, Abs(t.amount), c);
      }
    }
  }

  lemma {:induction false} LabelsAt(entries: seq<(string, real)>)
    ensures |Labels(entries)| == |entries|
    ensures forall k :: 0 <= k < |entries| ==> Labels(entries)[k] == entries[k].0
    decreases |entries|
  {
    if entries != [] {
      LabelsAt(entries[1..]);
      assert Labels(entries) == [entries[0].0] + Labels(entries[1..]);
    }
  }

  /** Without repeated labels, every entry is the one its label finds. */
  lemma {:induction false} EntryIsFound(entries: seq<(string, real)>, k: nat)
    requires NoDuplicates(Labels(entries)) && k < |entries|
    ensures ValueOf(entries, entries[k].0) == entries[k].1
    decreases k
  {
    LabelsAt(entries);
    if k > 0 {
      assert Labels(entries)[0] != Labels(entries)[k];
      LabelsAt(entries[1..]);
      assert NoDuplicates(Labels(entries[1..])) by {
        forall i, j | 0 <= i < j < |Labels(entries[1..])|
          ensures Labels(entries[1..])[i] != Labels(entries[1..])[j]
        {
          assert Labels(entries)[i + 1] != Labels(entries)[j + 1];
        }
      }
      EntryIsFound(entries[1..], k - 1);
    }
  }

  /** Each pie entry's amount is the absolute sum of the debits in its
      category. */
  lemma CategoryValues(txs: seq<ClientTx>)
    ensures forall k :: 0 <= k < |CategoryData(txs)| ==>
      CategoryData(txs)[k].1 == DebitSumIn(txs, CategoryData(txs)[k].0)
  {
    var e := CategoryData(txs);
    CategoryLabels(txs, "");
    forall k | 0 <= k < |e| ensures e[k].1 == DebitSumIn(txs, e[k].0) {
      EntryIsFound(e, k);
      CategoryValueOf(txs, e[k].0);
    }
  }

  /** The categories are listed in first-seen order: a category listed
      before another has a debit earlier than any debit of the other. */
  predicate FirstSeenOrdered(txs: seq<ClientTx>, l: seq<string>)
  {
    forall i, j, m :: 0 <= i < j < |l| && 0 <= m < |txs| && IsDebit(txs[m]) && txs[m].category == l[j] ==>
      HasDebitIn(txs[..m], l[i])
  }

  lemma {:induction false} CategoryFirstSeenOrder(txs: seq<ClientTx>)
    ensures FirstSeenOrdered(txs, Labels(CategoryData(txs)))
    decreases |txs|
  {
    if txs != [] {
      var prefix := txs[..|txs| - 1];
      var t := txs[|txs| - 1];
      var before := Labels(CategoryData(prefix));
      var l := Labels(CategoryData(txs));
      CategoryFirstSeenOrder(prefix);
      if IsDebit(t) {
        AddAmountSpec(CategoryData(prefix), t.category, Abs(t.amount));
      }
      assert l == before || l == before + [t.category];
      forall i, j, m | 0 <= i < j < |l| && 0 <= m < |txs| && IsDebit(txs[m]) && txs[m].category == l[j]
        ensures HasDebitIn(txs[..m], l[i])
      {
        assert l[i] == before[i];
        if m < |prefix| {
          assert txs[m] == prefix[m] && prefix[..m] == txs[..m];
          if j == |before| {
            CategoryLabels(prefix, txs[m].category);
            assert false;
          }
          assert l[j] == before[j];
          assert IsDebit(prefix[m]) && prefix[m].category == before[j] && j < |before| && m < |prefix|;
          assert HasDebitIn(prefix[..m], before[i]);
        } else {
          assert txs[..m] == prefix;
          assert before[i] in before;
          CategoryLabels(prefix, before[i]);
        }
      }
    }
  }

  lemma NoDuplicatesAppend(s: seq<string>, x: string)
    requires NoDuplicates(s) && x !in s
    ensures NoDuplicates(s + [x])
  {
  }

  predicate NoDuplicates(s: seq<string>)
  {
    forall i, j :: 0 <= i < j < |s| ==> s[i] != s[j]
  }

  // ---------------------------------------------------------------------------
  // what is shown

  /** The pie chart is drawn when the category table has an entry. */
  predicate ShowPie(txs: seq<ClientTx>)
  {
    |CategoryData(txs)| > 0
  }

  /** The bar chart is drawn when some month's amount is positive. */
  predicate ShowBar(txs: seq<ClientTx>)
  {
    exists i :: 0 <= i < 12 && MonthlyData(txs)[i] > 0.0
  }

  lemma {:induction false} MonthsNonNegative(txs: seq<ClientTx>)
    ensures forall i :: 0 <= i < 12 ==> MonthlyData(txs)[i] >= 0.0
    decreases |txs|
  {
    if txs != [] {
      MonthsNonNegative(txs[..|txs| - 1]);
    }
  }

  lemma {:induction false} PositiveTermPositiveSum(s: seq<real>, i: nat)
    requires forall k :: 0 <= k < |s| ==> s[k] >= 0.0
    requires i < |s| && s[i] > 0.0
    ensures SumReals(s) > 0.0
    decreases |s|
  {
    NonNegativeSum(s[1..]);
    if i > 0 {
      PositiveTermPositiveSum(s[1..], i - 1);
    }
  }

  lemma {:induction false} NonNegativeSum(s: seq<real>)
    requires forall k :: 0 <= k < |s| ==> s[k] >= 0.0
    ensures SumReals(s) >= 0.0
    decreases |s|
  {
    if s != [] {
      NonNegativeSum(s[1..]);
    }
  }

  /** Some debit exists once the debit count is positive. */
  lemma {:induction false} SomeDebit(txs: seq<ClientTx>) returns (j: nat)
    requires DebitCount(txs) > 0
    ensures j < |txs| && IsDebit(txs[j])
    decreases |txs|
  {
    if IsDebit(txs[|txs| - 1]) {
      j := |txs| - 1;
    } else {
      j := SomeDebit(txs[..|txs| - 1]);
    }
  }

  /** The pie chart is shown exactly when there is a debit; whenever the bar
      chart is shown, so is the pie chart. */
  lemma ShownCharts(txs: seq<ClientTx>)
    ensures ShowPie(txs) <==> DebitCount(txs) > 0
    ensures ShowBar(txs) ==> ShowPie(txs)
  {
    if DebitCount(txs) > 0 {
      var j := SomeDebit(txs);
      CategoryLabels(txs, txs[j].category);
    } else {
      if ShowPie(txs) {
        CategoryLabels(txs, CategoryData(txs)[0].0);
        var j :| 0 <= j < |txs| && IsDebit(txs[j]) && txs[j].category == CategoryData(txs)[0].0;
        DebitWitness(txs, j);
      }
    }
    if ShowBar(txs) {
      var i :| 0 <= i < 12 && MonthlyData(txs)[i] > 0.0;
      MonthsNonNegative(txs);
      PositiveTermPositiveSum(MonthlyData(txs), i);
      ChartTotals(txs);
      AverageExpenseSpec(txs);
      var j := SomeDebit(txs);
      CategoryLabels(txs, txs[j].category);
    }
  }

  lemma {:induction false} DebitWitness(txs: seq<ClientTx>, j: nat)
    requires j < |txs| && IsDebit(txs[j])
    ensures DebitCount(txs) > 0
    decreases |txs|
  {
    if j < |txs| - 1 {
      assert txs[..|txs| - 1][j] == txs[j];
      DebitWitness(txs[..|txs| - 1], j);
    }
  }

  /** A single debit of amount zero shows the pie chart but not the bar
      chart. */
  lemma ZeroDebitShowsPieOnly(t: ClientTx)
    requires IsDebit(t) && t.amount == 0.0
    ensures ShowPie([t]) && !ShowBar([t])
  {
    assert [t][..0] == [];
    assert MonthlyData([t]) == seq(12, _ => 0.0)[t.month := 0.0];
  }

  // ---------------------------------------------------------------------------
  // slice labels

  /** The label on a slice: "0%" while the total is zero, otherwise the
      slice's share in percent (the rounding to a whole number is not
      modelled). */
  datatype ArcLabel = ZeroPercent | Percent(p: real)

  function GetArcLabel(value: real, total: real): (l: ArcLabel)
    ensures l.ZeroPercent? <==> total == 0.0
    ensures l.Percent? ==> l.p * total == value * 100.0
  {
    if total == 0.0 then ZeroPercent else Percent(value / total * 100.0)
  }

  function PercentSum(entries: seq<(string, real)>, total: real): real
    requires total != 0.0
    decreases |entries|
  {
    if entries == [] then 0.0
    else GetArcLabel(entries[0].1, total).p + PercentSum(entries[1..], total)
  }

  lemma {:induction false} PercentSumScales(entries: seq<(string, real)>, total: real)
    requires total != 0.0
    ensures PercentSum(entries, total) == ValueSum(entries) / total * 100.0
    decreases |entries|
  {
    if entries != [] {
      PercentSumScales(entries[1..], total);
      assert entries[0].1 / total * 100.0 + ValueSum(entries[1..]) / total * 100.0
          == (entries[0].1 + ValueSum(entries[1..])) / total * 100.0;
    }
  }

  lemma DivSelf(x: real)
    requires x != 0.0
    ensures x / x * 100.0 == 100.0
  {
    var q := x / x;
    assert q * x == x;
    assert (q - 1.0) * x == 0.0;
  }

  /** When the chart has a non-zero total, the unrounded shares of the
      slices add up to 100 percent (the labels round each share, so their sum
      may differ). */
  lemma SlicesMakeAHundred(txs: seq<ClientTx>)
    requires DebitTotal(txs) != 0.0
    ensures ValueSum(CategoryData(txs)) == DebitTotal(txs)
    ensures PercentSum(CategoryData(txs), ValueSum(CategoryData(txs))) == 100.0
  {
    ChartTotals(txs);
    var total := ValueSum(CategoryData(txs));
    PercentSumScales(CategoryData(txs), total);
    DivSelf(total);
  }
}
