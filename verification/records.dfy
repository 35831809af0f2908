/**
 * The store record the extractor returns, the fields derived from the revenue
 * buckets, the static store-address table, and the totals row the batch loop
 * folds from the store records.
 */
module Records {
  import opened Wrappers
  import opened Text
  import opened GridScan

  /** One extracted store-month, in the field order of the returned object. */
  datatype StoreRecord = StoreRecord(
    month: string,
    storeNumber: string,
    storeAddress: string,
    dairyQueen: real,
    dqFood: real,
    beverages: real,
    breakfast: real,
    cakes: real,
    ojBeverages: real,
    transactionCount: real,
    netSalesWithDonations: real,
    totalSales: real,
    filename: string)

  // ---------------------------------------------------------------------------
  // Store addresses
  // ---------------------------------------------------------------------------

  /** How many entries the store-address table has. */
  const AddressCount: nat := 23

  /** The store-number to street-address table, entry `k` in the order it is written: its store number. */
  function ListedStore(k: nat): (storeNumber: string)
    requires k < AddressCount
    ensures |storeNumber| == 5
  {
    if k == 0 then "10519"
    else if k == 1 then "11289"
    else if k == 2 then "11293"
    else if k == 3 then "11504"
    else if k == 4 then "12545"
    else if k == 5 then "12832"
    else if k == 6 then "13136"
    else if k == 7 then "13258"
    else if k == 8 then "13709"
    else if k == 9 then "13712"
    else if k == 10 then "41242"
    else if k == 11 then "41962"
    else if k == 12 then "43263"
    else if k == 13 then "44417"
    else if k == 14 then "44478"
    else if k == 15 then "44754"
    else if k == 16 then "44790"
    else if k == 17 then "44857"
    else if k == 18 then "45070"
    else if k == 19 then "45198"
    else if k == 20 then "71504"
    else if k == 21 then "71515"
    else "72449"
  }

  /** The address of table entry `k`. */
  function ListedAddress(k: nat): (address: string)
    requires k < AddressCount
  {
    if k == 0 then "400 N Foxridge Raymore MO"
    else if k == 1 then "1407 S Baltimor Kirksville MO"
    else if k == 2 then "1912 S Main St Maryville MO"
    else if k == 3 then "1710 W 6th St Emporia KS"
    else if k == 4 then "11904 Shawnee M Shawnee KS"
    else if k == 5 then "701 S Commercia Harrisonville MO"
    else if k == 6 then "412 Northland D Cameron MO"
    else if k == 7 then "14420 E Highway Kansas City MO"
    else if k == 8 then "400 SE Douglas Lees Summit MO"
    else if k == 9 then "6904 Hunter St Raytown MO"
    else if k == 10 then "13525 College B Olathe KS"
    else if k == 11 then "1900 SW State R Blue Springs MO"
    else if k == 12 then "11630 Saline J Nelson MO"
    else if k == 13 then "1609 N Missouri Macon MO"
    else if k == 14 then "8601 W 137th St Overland Park KS"
    else if k == 15 then "518 E Main St Gardner KS"
    else if k == 16 then "6001 Main St Grandview MO"
    else if k == 17 then "17930 W 119th S Olathe KS"
    else if k == 18 then "22520 Midland D Shawnee KS"
    else if k == 19 then "1100 W 135th Te Kansas City MO"
    else if k == 20 then "Kansas Turnpike Matfield Green KS"
    else if k == 21 then "7581 SW Kansas Towanda KS"
    else "1520 South Webb Wichita KS"
  }

  /** Whether `storeNumber` is a key of the table. */
  predicate Listed(storeNumber: string)
  {
    exists k :: 0 <= k < AddressCount && ListedStore(k) == storeNumber
  }

  /** The first entry from `k` on whose key is `storeNumber`, or AddressCount when there is none. */
  function ListingFrom(storeNumber: string, k: nat): (j: nat)
    requires k <= AddressCount
    ensures k <= j <= AddressCount
    ensures j < AddressCount ==> ListedStore(j) == storeNumber
    ensures forall i :: k <= i < j ==> ListedStore(i) != storeNumber
    decreases AddressCount - k
  {
    if k == AddressCount || ListedStore(k) == storeNumber then k
    else ListingFrom(storeNumber, k + 1)
  }

  const AddressNotFound: string := "Address not found"

  /** `storeAddresses[storeNumber] || 'Address not found'`: a missing or empty entry falls back. */
  function AddressOf(storeNumber: string): string
  {
    var j := ListingFrom(storeNumber, 0);
    if j < AddressCount && ListedAddress(j) != "" then ListedAddress(j) else AddressNotFound
  }

  /** No two entries share a store number. */
  lemma KeysDistinct(i: nat, j: nat)
    requires i < AddressCount && j < AddressCount
    ensures ListedStore(i) == ListedStore(j) ==> i == j
  {
  }

  /** No entry's address is empty or the fallback text. */
  lemma AddressesNotFallback(k: nat)
    requires k < AddressCount
    ensures ListedAddress(k) != "" && ListedAddress(k) != AddressNotFound
  {
  }

  /**
   * The lookup yields the table's address for each listed store number and
   * the fallback text for every other string; no entry is empty, so the `||`
   * fallback never hides a listed store.
   */
  lemma AddressLookup(storeNumber: string)
    ensures forall k :: 0 <= k < AddressCount && ListedStore(k) == storeNumber ==>
              AddressOf(storeNumber) == ListedAddress(k)
    ensures AddressOf(storeNumber) == AddressNotFound <==> !Listed(storeNumber)
  {
    var j := ListingFrom(storeNumber, 0);
    forall k | 0 <= k < AddressCount && ListedStore(k) == storeNumber
      ensures AddressOf(storeNumber) == ListedAddress(k)
    {
      assert j <= k;
      KeysDistinct(j, k);
      AddressesNotFallback(k);
    }
    if j < AddressCount {
      AddressesNotFallback(j);
    }
  }

  /** The empty store number of a sheet without a store line has no address. */
  lemma NoStoreNoAddress()
    ensures AddressOf("") == AddressNotFound
  {
    AddressLookup("");
  }

  // ---------------------------------------------------------------------------
  // Derived fields
  // ---------------------------------------------------------------------------

  /** `a.reduce((sum, val) => sum + val, 0)`: the left-to-right sum. */
  function Sum(xs: seq<real>): real
  {
    if xs == [] then 0.0 else Sum(xs[..|xs| - 1]) + xs[|xs| - 1]
  }

  function Max(a: real, b: real): (m: real)
    ensures m >= a && m >= b && (m == a || m == b)
  {
    if a >= b then a else b
  }

  /** The sum of the record's revenue fields: `dqFood` stands for food plus novelties. */
  function RevenueOf(r: StoreRecord): real
  {
    r.dairyQueen + r.dqFood + r.beverages + r.breakfast + r.cakes + r.ojBeverages
  }

  /**
   * The relation every store record keeps between its fields: the total is
   * the larger of the revenue breakdown and net sales.
   */
  predicate Consistent(r: StoreRecord)
  {
    r.totalSales == Max(RevenueOf(r), r.netSalesWithDonations)
  }

  /** A bucket value the revenue scan can produce: nothing found, or a number above 100. */
  predicate BucketValue(v: real)
  {
    v == 0.0 || v > 100.0
  }

  /**
   * The record of one sheet: buckets in category order (soft serve, food,
   * novelties-boxed, beverage, cakes, breakfast, oj beverages), order count
   * and net sales from the scalar scan.
   */
  function BuildRecord(month: string, storeNumber: string, revenues: seq<real>, orderCount: real,
                       netSales: real, filename: string): (r: StoreRecord)
    requires |revenues| == CategoryCount
    ensures r.dqFood == revenues[1] + revenues[2]
    ensures r.totalSales >= Sum(revenues) && r.totalSales >= netSales
    ensures r.totalSales == Sum(revenues) || r.totalSales == netSales
    ensures Consistent(r)
    ensures r.storeAddress == AddressOf(storeNumber)
  {
    var dqFood := revenues[1] + revenues[2];
    var totalSales := Sum(revenues);
    assert totalSales == revenues[0] + revenues[1] + revenues[2] + revenues[3] + revenues[4] + revenues[5] + revenues[6] by {
      SumOfSeven(revenues);
    }
    StoreRecord(month, storeNumber, AddressOf(storeNumber), revenues[0], dqFood, revenues[3], revenues[5],
                revenues[4], revenues[6], orderCount, netSales, Max(totalSales, netSales), filename)
  }

  lemma SumOfSeven(xs: seq<real>)
    requires |xs| == 7
    ensures Sum(xs) == xs[0] + xs[1] + xs[2] + xs[3] + xs[4] + xs[5] + xs[6]
  {
    assert xs[..6][..5] == xs[..5] && xs[..5][..4] == xs[..4] && xs[..4][..3] == xs[..3];
    assert xs[..3][..2] == xs[..2] && xs[..2][..1] == xs[..1] && xs[..1][..0] == [];
    assert Sum(xs[..1]) == xs[0];
    assert Sum(xs[..2]) == Sum(xs[..1]) + xs[1];
    assert Sum(xs[..3]) == Sum(xs[..2]) + xs[2];
    assert Sum(xs[..4]) == Sum(xs[..3]) + xs[3];
    assert Sum(xs[..5]) == Sum(xs[..4]) + xs[4];
    assert Sum(xs[..6]) == Sum(xs[..5]) + xs[5];
  }

  /**
   * With every bucket 0 or above 100 the record's revenue fields are too
   * (`dqFood` is 0 or above 100 as a sum of two such), and the total is never
   * negative.
   */
  lemma BuildRecordBuckets(month: string, storeNumber: string, revenues: seq<real>, orderCount: real,
                           netSales: real, filename: string)
    requires |revenues| == CategoryCount
    requires forall k :: 0 <= k < CategoryCount ==> BucketValue(revenues[k])
    ensures var r := BuildRecord(month, storeNumber, revenues, orderCount, netSales, filename);
            BucketValue(r.dairyQueen) && BucketValue(r.dqFood) && BucketValue(r.beverages) &&
            BucketValue(r.breakfast) && BucketValue(r.cakes) && BucketValue(r.ojBeverages) &&
            r.totalSales >= 0.0
  {
    SumOfSeven(revenues);
    assert BucketValue(revenues[1]) && BucketValue(revenues[2]);
  }

  // ---------------------------------------------------------------------------
  // Totals
  // ---------------------------------------------------------------------------

  /** The accumulator of the totals `reduce`: the nine numeric fields. */
  datatype Amounts = Amounts(
    dairyQueen: real,
    dqFood: real,
    beverages: real,
    breakfast: real,
    cakes: real,
    ojBeverages: real,
    transactionCount: real,
    netSalesWithDonations: real,
    totalSales: real)

  const NoAmounts: Amounts := Amounts(0.0, 0.0, 0.0, 0.0, 0.0, 0.0, 0.0, 0.0, 0.0)

  function AmountsOf(r: StoreRecord): Amounts
  {
    Amounts(r.dairyQueen, r.dqFood, r.beverages, r.breakfast, r.cakes, r.ojBeverages,
            r.transactionCount, r.netSalesWithDonations, r.totalSales)
  }

  /** Field-wise addition, as the reducer adds a row to the accumulator. */
  function Add(a: Amounts, b: Amounts): Amounts
  {
    Amounts(a.dairyQueen + b.dairyQueen, a.dqFood + b.dqFood, a.beverages + b.beverages,
            a.breakfast + b.breakfast, a.cakes + b.cakes, a.ojBeverages + b.ojBeverages,
            a.transactionCount + b.transactionCount,
            a.netSalesWithDonations + b.netSalesWithDonations, a.totalSales + b.totalSales)
  }

  /** The totals `reduce`: records folded left to right from all zeros. */
  function Accumulate(rs: seq<StoreRecord>): Amounts
  {
    if rs == [] then NoAmounts else Add(Accumulate(rs[..|rs| - 1]), AmountsOf(rs[|rs| - 1]))
  }

  /** The summary row appended after the store records. */
  function TotalsRecord(rs: seq<StoreRecord>): (t: StoreRecord)
    ensures t.month == "TOTAL" && t.storeNumber == "" && t.storeAddress == "All Stores Combined"
    ensures t.filename == "TOTALS"
    ensures AmountsOf(t) == Accumulate(rs)
  {
    var a := Accumulate(rs);
    StoreRecord("TOTAL", "", "All Stores Combined", a.dairyQueen, a.dqFood, a.beverages, a.breakfast,
                a.cakes, a.ojBeverages, a.transactionCount, a.netSalesWithDonations, a.totalSales, "TOTALS")
  }

  /** Column `f` of the records, top to bottom. */
  function Column(rs: seq<StoreRecord>, f: StoreRecord -> real): (c: seq<real>)
    ensures |c| == |rs|
  {
    seq(|rs|, i requires 0 <= i < |rs| => f(rs[i]))
  }

  /** Each of the nine numeric fields of the totals row is the sum of that field over the records. */
  lemma {:induction false} TotalsAreColumnSums(rs: seq<StoreRecord>)
    ensures var t := TotalsRecord(rs);
            t.dairyQueen == Sum(Column(rs, (r: StoreRecord) => r.dairyQueen)) &&
            t.dqFood == Sum(Column(rs, (r: StoreRecord) => r.dqFood)) &&
            t.beverages == Sum(Column(rs, (r: StoreRecord) => r.beverages)) &&
            t.breakfast == Sum(Column(rs, (r: StoreRecord) => r.breakfast)) &&
            t.cakes == Sum(Column(rs, (r: StoreRecord) => r.cakes)) &&
            t.ojBeverages == Sum(Column(rs, (r: StoreRecord) => r.ojBeverages)) &&
            t.transactionCount == Sum(Column(rs, (r: StoreRecord) => r.transactionCount)) &&
            t.netSalesWithDonations == Sum(Column(rs, (r: StoreRecord) => r.netSalesWithDonations)) &&
            t.totalSales == Sum(Column(rs, (r: StoreRecord) => r.totalSales))
  {
    if rs != [] {
      var init := rs[..|rs| - 1];
      TotalsAreColumnSums(init);
      ColumnSnoc(init, rs[|rs| - 1], (r: StoreRecord) => r.dairyQueen);
      ColumnSnoc(init, rs[|rs| - 1], (r: StoreRecord) => r.dqFood);
      ColumnSnoc(init, rs[|rs| - 1], (r: StoreRecord) => r.beverages);
      ColumnSnoc(init, rs[|rs| - 1], (r: StoreRecord) => r.breakfast);
      ColumnSnoc(init, rs[|rs| - 1], (r: StoreRecord) => r.cakes);
      ColumnSnoc(init, rs[|rs| - 1], (r: StoreRecord) => r.ojBeverages);
      ColumnSnoc(init, rs[|rs| - 1], (r: StoreRecord) => r.transactionCount);
      ColumnSnoc(init, rs[|rs| - 1], (r: StoreRecord) => r.netSalesWithDonations);
      ColumnSnoc(init, rs[|rs| - 1], (r: StoreRecord) => r.totalSales);
      assert rs == init + [rs[|rs| - 1]];
    }
  }

  lemma ColumnSnoc(rs: seq<StoreRecord>, r: StoreRecord, f: StoreRecord -> real)
    ensures Sum(Column(rs + [r], f)) == Sum(Column(rs, f)) + f(r)
  {
    assert Column(rs + [r], f)[..|rs|] == Column(rs, f);
  }

  /** Folding a concatenation is adding the folds of the parts. */
  lemma {:induction false} AccumulateAppend(a: seq<StoreRecord>, b: seq<StoreRecord>)
    ensures Accumulate(a + b) == Add(Accumulate(a), Accumulate(b))
    decreases |b|
  {
    if b == [] {
      assert a + b == a;
    } else {
      var init, last := b[..|b| - 1], b[|b| - 1];
      AccumulateAppend(a, init);
      SplitLast(a, b);
      AccumulateSnoc(a + init, last);
      AddAssoc(Accumulate(a), Accumulate(init), AmountsOf(last));
    }
  }

  lemma SplitLast(a: seq<StoreRecord>, b: seq<StoreRecord>)
    requires b != []
    ensures a + b == (a + b[..|b| - 1]) + [b[|b| - 1]]
  {
    assert b == b[..|b| - 1] + [b[|b| - 1]];
  }

  lemma SplitAround(b: seq<StoreRecord>, i: nat)
    requires i < |b|
    ensures b == (b[..i] + [b[i]]) + b[i + 1..]
  {
  }

  lemma AccumulateSnoc(rs: seq<StoreRecord>, r: StoreRecord)
    ensures Accumulate(rs + [r]) == Add(Accumulate(rs), AmountsOf(r))
  {
    assert (rs + [r])[..|rs|] == rs;
  }

  lemma AddAssoc(p: Amounts, q: Amounts, r: Amounts)
    ensures Add(Add(p, q), r) == Add(p, Add(q, r))
  {
  }

  /** Taking one record out of the middle: the fold of the rest plus that record. */
  lemma AccumulateRemove(b: seq<StoreRecord>, i: nat)
    requires i < |b|
    ensures Accumulate(b) == Add(Accumulate(b[..i] + b[i + 1..]), AmountsOf(b[i]))
  {
    var front, x, back := b[..i], b[i], b[i + 1..];
    SplitAround(b, i);
    var p, q, r := Accumulate(front), AmountsOf(x), Accumulate(back);
    assert Accumulate(front + [x]) == Add(p, q) by {
      assert (front + [x])[..|front|] == front;
    }
    AccumulateAppend(front + [x], back);
    assert Accumulate(b) == Add(Add(p, q), r);
    AccumulateAppend(front, back);
    assert Accumulate(front + back) == Add(p, r);
    AddSwap(p, q, r);
  }

  lemma AddSwap(p: Amounts, q: Amounts, r: Amounts)
    ensures Add(Add(p, q), r) == Add(Add(p, r), q)
  {
  }

  lemma MultisetRemove(a: seq<StoreRecord>, b: seq<StoreRecord>, i: nat)
    requires a != [] && i < |b| && b[i] == a[|a| - 1]
    requires multiset(a) == multiset(b)
    ensures multiset(a[..|a| - 1]) == multiset(b[..i] + b[i + 1..])
  {
    var x := a[|a| - 1];
    assert a == a[..|a| - 1] + [x];
    assert b == b[..i] + [x] + b[i + 1..];
    assert multiset(a[..|a| - 1]) == multiset(a) - multiset{x};
    assert multiset(b[..i] + b[i + 1..]) == multiset(b) - multiset{x};
  }

  /** The totals do not depend on the order of the records: any permutation gives the same sums. */
  lemma {:induction false} AccumulatePermutation(a: seq<StoreRecord>, b: seq<StoreRecord>)
    requires multiset(a) == multiset(b)
    ensures Accumulate(a) == Accumulate(b)
    decreases |a|
  {
    if a == [] {
      assert |b| == |multiset(b)| == 0;
    } else {
      var x := a[|a| - 1];
      assert x in multiset(b);
      var i :| 0 <= i < |b| && b[i] == x;
      MultisetRemove(a, b, i);
      AccumulatePermutation(a[..|a| - 1], b[..i] + b[i + 1..]);
      AccumulateRemove(b, i);
    }
  }

  /**
   * The totals row's total is at least its summed revenue fields and at least
   * its summed net sales, because each store's total is at least both.
   */
  lemma {:induction false} TotalsDominate(rs: seq<StoreRecord>)
    requires forall i :: 0 <= i < |rs| ==> Consistent(rs[i])
    ensures var t := TotalsRecord(rs);
            t.totalSales >= RevenueOf(t) && t.totalSales >= t.netSalesWithDonations
  {
    if rs != [] {
      var init := rs[..|rs| - 1];
      assert forall i :: 0 <= i < |init| ==> init[i] == rs[i];
      TotalsDominate(init);
      assert Consistent(rs[|rs| - 1]);
    }
  }

  /** With a single store, the totals row repeats that store's numbers. */
  lemma SingleStoreTotals(r: StoreRecord)
    ensures AmountsOf(TotalsRecord([r])) == AmountsOf(r)
  {
    assert [r][..0] == [];
    assert Accumulate([r]) == Add(NoAmounts, AmountsOf(r));
  }
}
