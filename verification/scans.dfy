/**
 * The two scans over the sparse cell map: the labeled-scalar scan (net sales
 * and order count) and the revenue-category scan (seven buckets). Both visit
 * the cells of a block of rows in row-major order; a cell whose value is
 * truthy and whose lower-cased text contains a label makes the scan probe the
 * cells to its right, and a field takes a probed value only while it is
 * still 0.
 *
 * Each scan is specified by `FirstFound`: the first non-zero value a rule
 * yields over the visited positions, or 0 when there is none.
 */
module GridScan {
  import opened Wrappers
  import opened Text
  import opened Cells
  import opened Events

  function Min(a: int, b: int): (m: int)
    ensures m <= a && m <= b && (m == a || m == b)
  {
    if a <= b then a else b
  }

  // ---------------------------------------------------------------------------
  // Visiting order
  // ---------------------------------------------------------------------------

  /** The addresses of row `r` from column `c0` to column `c1`, left to right. */
  function RowPositions(r: int, c0: int, c1: int): seq<Pos>
    decreases if c1 < c0 then 0 else c1 - c0 + 1
  {
    if c1 < c0 then [] else RowPositions(r, c0, c1 - 1) + [(r, c1)]
  }

  /** Rows `r0..r1`, each from column `c0` to `c1`: the order of the scans' nested loops. */
  function Positions(r0: int, r1: int, c0: int, c1: int): seq<Pos>
    decreases if r1 < r0 then 0 else r1 - r0 + 1
  {
    if r1 < r0 then [] else Positions(r0, r1 - 1, c0, c1) + RowPositions(r1, c0, c1)
  }

  lemma AppendSnoc(a: seq<Pos>, b: seq<Pos>, x: Pos)
    ensures (a + b) + [x] == a + (b + [x])
  {
  }

  /** `p` comes before `q` in row-major order. */
  predicate Before(p: Pos, q: Pos) {
    p.0 < q.0 || (p.0 == q.0 && p.1 < q.1)
  }

  predicate RowMajor(ps: seq<Pos>) {
    forall a, b :: 0 <= a < b < |ps| ==> Before(ps[a], ps[b])
  }

  lemma {:induction false} RowPositionsExact(r: int, c0: int, c1: int)
    ensures forall p :: p in RowPositions(r, c0, c1) <==> p.0 == r && c0 <= p.1 <= c1
    ensures RowMajor(RowPositions(r, c0, c1))
    decreases if c1 < c0 then 0 else c1 - c0 + 1
  {
    if c0 <= c1 {
      RowPositionsExact(r, c0, c1 - 1);
    }
  }

  /**
   * A scan over rows `r0..r1` and columns `c0..c1` visits exactly the cells of
   * that block, each once, in row-major order.
   */
  lemma {:induction false} PositionsExact(r0: int, r1: int, c0: int, c1: int)
    ensures forall p :: p in Positions(r0, r1, c0, c1) <==> r0 <= p.0 <= r1 && c0 <= p.1 <= c1
    ensures RowMajor(Positions(r0, r1, c0, c1))
    decreases if r1 < r0 then 0 else r1 - r0 + 1
  {
    if r0 <= r1 {
      PositionsExact(r0, r1 - 1, c0, c1);
      RowPositionsExact(r1, c0, c1);
      var a, b := Positions(r0, r1 - 1, c0, c1), RowPositions(r1, c0, c1);
      forall i, j | 0 <= i < j < |a + b|
        ensures Before((a + b)[i], (a + b)[j])
      {
        if j < |a| {
          assert (a + b)[i] == a[i] && (a + b)[j] == a[j];
        } else if i < |a| {
          assert (a + b)[i] == a[i] && a[i] in a;
          assert (a + b)[j] == b[j - |a|] && b[j - |a|] in b;
        } else {
          assert (a + b)[i] == b[i - |a|] && (a + b)[j] == b[j - |a|];
        }
      }
    }
  }

  /** The block the labeled-scalar scan visits: rows up to `min(range.e.r, 50)`. */
  function ScalarArea(range: Range): seq<Pos>
  {
    Positions(range.sr, Min(range.er, 50), range.sc, range.ec)
  }

  /** The block the revenue-category scan visits: rows up to `min(range.e.r, 100)`. */
  function RevenueArea(range: Range): seq<Pos>
  {
    Positions(range.sr, Min(range.er, 100), range.sc, range.ec)
  }

  // ---------------------------------------------------------------------------
  // Rules and probes
  // ---------------------------------------------------------------------------

  /**
   * What one field of a scan looks for: a lower-case label, how many cells to
   * the right of the label it probes, and the value a probed number must
   * exceed, if any.
   */
  datatype Rule = Rule(name: string, window: nat, floor: Option<real>)

  const NetSales: Rule := Rule("net sales", 3, None)
  const OrderCount: Rule := Rule("order count", 3, None)

  /** The number of revenue categories. */
  const CategoryCount: nat := 7

  /** The revenue-category labels, in the order the scan tries them. */
  function Category(k: nat): string
    requires k < CategoryCount
  {
    if k == 0 then "soft serve" else if k == 1 then "food" else if k == 2 then "novelties-boxed"
    else if k == 3 then "beverage" else if k == 4 then "cakes" else if k == 5 then "breakfast"
    else "oj beverages"
  }

  /** Revenue labels probe five cells and accept only numbers above 100. */
  function CategoryRule(k: nat): Rule
    requires k < CategoryCount
  {
    Rule(Category(k), 5, Some(100.0))
  }

  /** A probed cell is taken when it holds a number above the floor, if there is one. */
  predicate Qualifies(c: Cell, floor: Option<real>) {
    c.Num? && (floor.None? || c.v > floor.value)
  }

  /** The cell `o` columns right of (r, c) qualifies. */
  predicate QualifiesAt(g: Grid, r: int, c: int, o: int, floor: Option<real>) {
    (r, c + o) in g && Qualifies(g[(r, c + o)], floor)
  }

  /** The first qualifying cell at offsets `o..window` to the right of (r, c). */
  function ProbeFrom(g: Grid, r: int, c: int, o: nat, window: nat, floor: Option<real>): (found: Option<real>)
    ensures found.Some? && floor.Some? ==> found.value > floor.value
    decreases window + 1 - o
  {
    if o > window then None
    else if QualifiesAt(g, r, c, o, floor) then Some(g[(r, c + o)].v)
    else ProbeFrom(g, r, c, o + 1, window, floor)
  }

  /** The probe a label at `p` starts: offsets 1..window, first qualifying cell wins. */
  function Probe(g: Grid, p: Pos, rule: Rule): Option<real>
  {
    ProbeFrom(g, p.0, p.1, 1, rule.window, rule.floor)
  }

  /**
   * The probe finds a value exactly when some offset in 1..window qualifies,
   * and the value is the one at the smallest such offset.
   */
  lemma {:induction false} ProbeFromExact(g: Grid, r: int, c: int, o: nat, window: nat, floor: Option<real>)
    requires 1 <= o
    ensures ProbeFrom(g, r, c, o, window, floor).None? <==>
            forall k :: o <= k <= window ==> !QualifiesAt(g, r, c, k, floor)
    ensures ProbeFrom(g, r, c, o, window, floor).Some? ==>
            exists k :: o <= k <= window && QualifiesAt(g, r, c, k, floor) &&
                        ProbeFrom(g, r, c, o, window, floor).value == g[(r, c + k)].v &&
                        forall k' :: o <= k' < k ==> !QualifiesAt(g, r, c, k', floor)
    decreases window + 1 - o
  {
    if o <= window && !QualifiesAt(g, r, c, o, floor) {
      ProbeFromExact(g, r, c, o + 1, window, floor);
      if ProbeFrom(g, r, c, o, window, floor).Some? {
        var k :| o + 1 <= k <= window && QualifiesAt(g, r, c, k, floor) &&
                 ProbeFrom(g, r, c, o + 1, window, floor).value == g[(r, c + k)].v &&
                 forall k' :: o + 1 <= k' < k ==> !QualifiesAt(g, r, c, k', floor);
        assert forall k' :: o <= k' < k ==> !QualifiesAt(g, r, c, k', floor);
      }
    }
  }

  /** The probe loop: offsets 1..window, stopping at the first qualifying cell. */
  method ProbeRight(g: Grid, r: int, c: int, rule: Rule) returns (found: Option<real>)
    ensures found == Probe(g, (r, c), rule)
  {
    var offset := 1;
    while offset <= rule.window
      invariant 1 <= offset <= rule.window + 1
      invariant Probe(g, (r, c), rule) == ProbeFrom(g, r, c, offset, rule.window, rule.floor)
    {
      var address := (r, c + offset);
      if address in g && Qualifies(g[address], rule.floor) {
        return Some(g[address].v);
      }
      offset := offset + 1;
    }
    return None;
  }

  /**
   * What the cell at `p` yields for `rule` when the field is still 0: a probe,
   * if the cell is present, truthy, and its lower-cased text holds the label.
   */
  function Hit(g: Grid, rule: Rule, p: Pos): Option<real>
  {
    if p in g && Truthy(g[p]) && Contains(Lower(CellText(g[p])), rule.name) then Probe(g, p, rule)
    else None
  }

  /** The value a hit writes, with "no hit" read as 0. */
  function HitValue(g: Grid, rule: Rule, p: Pos): real
  {
    var h := Hit(g, rule, p);
    if h.Some? then h.value else 0.0
  }

  // ---------------------------------------------------------------------------
  // First found wins
  // ---------------------------------------------------------------------------

  /**
   * The field's value after visiting `ps` in order, starting from 0: each hit
   * is written while the field is still 0, so the first non-zero hit sticks.
   */
  function FirstFound(g: Grid, rule: Rule, ps: seq<Pos>): (v: real)
    ensures rule.floor.Some? && v != 0.0 ==> v > rule.floor.value
  {
    if ps == [] then 0.0
    else
      var prev := FirstFound(g, rule, ps[..|ps| - 1]);
      var h := Hit(g, rule, ps[|ps| - 1]);
      if prev == 0.0 && h.Some? then h.value else prev
  }

  lemma FirstFoundSnoc(g: Grid, rule: Rule, ps: seq<Pos>, p: Pos)
    ensures FirstFound(g, rule, ps + [p]) ==
            if FirstFound(g, rule, ps) == 0.0 && Hit(g, rule, p).Some? then Hit(g, rule, p).value
            else FirstFound(g, rule, ps)
  {
    assert (ps + [p])[..|ps|] == ps;
  }

  /** Once the field is non-zero, no later cell changes it. */
  lemma {:induction false} FirstFoundStable(g: Grid, rule: Rule, ps: seq<Pos>, qs: seq<Pos>)
    requires FirstFound(g, rule, ps) != 0.0
    ensures FirstFound(g, rule, ps + qs) == FirstFound(g, rule, ps)
    decreases |qs|
  {
    if qs != [] {
      var init := qs[..|qs| - 1];
      FirstFoundStable(g, rule, ps, init);
      assert ps + qs == (ps + init) + [qs[|qs| - 1]];
      FirstFoundSnoc(g, rule, ps + init, qs[|qs| - 1]);
    } else {
      assert ps + qs == ps;
    }
  }

  /** With no non-zero hit anywhere in `ps`, the field stays 0. */
  lemma {:induction false} FirstFoundZero(g: Grid, rule: Rule, ps: seq<Pos>)
    requires forall i :: 0 <= i < |ps| ==> HitValue(g, rule, ps[i]) == 0.0
    ensures FirstFound(g, rule, ps) == 0.0
  {
    if ps != [] {
      var init := ps[..|ps| - 1];
      assert forall i :: 0 <= i < |init| ==> init[i] == ps[i];
      FirstFoundZero(g, rule, init);
      assert HitValue(g, rule, ps[|ps| - 1]) == 0.0;
    }
  }

  /** The field ends up holding the value of the first non-zero hit. */
  lemma FirstFoundFirst(g: Grid, rule: Rule, ps: seq<Pos>, k: nat)
    requires k < |ps| && HitValue(g, rule, ps[k]) != 0.0
    requires forall i :: 0 <= i < k ==> HitValue(g, rule, ps[i]) == 0.0
    ensures FirstFound(g, rule, ps) == HitValue(g, rule, ps[k])
  {
    var before := ps[..k];
    assert forall i :: 0 <= i < |before| ==> before[i] == ps[i];
    FirstFoundZero(g, rule, before);
    assert ps[..k + 1] == before + [ps[k]];
    FirstFoundSnoc(g, rule, before, ps[k]);
    assert ps == ps[..k + 1] + ps[k + 1..];
    FirstFoundStable(g, rule, ps[..k + 1], ps[k + 1..]);
  }

  /** Any non-zero hit makes the field non-zero. */
  lemma {:induction false} FirstFoundNonZero(g: Grid, rule: Rule, ps: seq<Pos>, k: nat)
    requires k < |ps| && HitValue(g, rule, ps[k]) != 0.0
    ensures FirstFound(g, rule, ps) != 0.0
    decreases k
  {
    if exists i :: 0 <= i < k && HitValue(g, rule, ps[i]) != 0.0 {
      var i :| 0 <= i < k && HitValue(g, rule, ps[i]) != 0.0;
      FirstFoundNonZero(g, rule, ps, i);
    } else {
      FirstFoundFirst(g, rule, ps, k);
    }
  }

  /** Cells that are absent or falsy never trigger a probe, so they never change a field. */
  lemma {:induction false} FalsyCellsIgnored(g: Grid, rule: Rule, ps: seq<Pos>, qs: seq<Pos>)
    requires forall i :: 0 <= i < |qs| ==> !(qs[i] in g && Truthy(g[qs[i]]))
    ensures FirstFound(g, rule, ps + qs) == FirstFound(g, rule, ps)
    decreases |qs|
  {
    if qs != [] {
      var init := qs[..|qs| - 1];
      assert forall i :: 0 <= i < |init| ==> init[i] == qs[i];
      FalsyCellsIgnored(g, rule, ps, init);
      assert ps + qs == (ps + init) + [qs[|qs| - 1]];
      FirstFoundSnoc(g, rule, ps + init, qs[|qs| - 1]);
    } else {
      assert ps + qs == ps;
    }
  }

  // ---------------------------------------------------------------------------
  // Labeled-scalar scan
  // ---------------------------------------------------------------------------

  /** The locals the labeled-scalar scan updates: the two fields and the log. */
  datatype ScalarState = ScalarState(netSales: real, orderCount: real, log: seq<LogEvent>)

  /**
   * One cell's effect on the labeled-scalar scan: net sales first, then order
   * count; a field still at 0 takes the cell's hit, and the find is logged.
   */
  function ScalarStep(g: Grid, s: ScalarState, p: Pos): ScalarState
  {
    var net := Hit(g, NetSales, p);
    var s' := if s.netSales == 0.0 && net.Some? then
                s.(netSales := net.value, log := s.log + [FoundNetSales(net.value)])
              else s;
    var count := Hit(g, OrderCount, p);
    if s'.orderCount == 0.0 && count.Some? then
      s'.(orderCount := count.value, log := s'.log + [FoundOrderCount(count.value)])
    else s'
  }

  /** The labeled-scalar scan's locals after visiting `ps` in order, from zero and an empty log. */
  function ScalarRun(g: Grid, ps: seq<Pos>): ScalarState
  {
    if ps == [] then ScalarState(0.0, 0.0, [])
    else ScalarStep(g, ScalarRun(g, ps[..|ps| - 1]), ps[|ps| - 1])
  }

  lemma ScalarRunSnoc(g: Grid, ps: seq<Pos>, p: Pos)
    ensures ScalarRun(g, ps + [p]) == ScalarStep(g, ScalarRun(g, ps), p)
  {
    assert (ps + [p])[..|ps|] == ps;
  }

  /** Net sales and order count end up as the first non-zero find of each label. */
  lemma {:induction false} ScalarRunFindsFirst(g: Grid, ps: seq<Pos>)
    ensures ScalarRun(g, ps).netSales == FirstFound(g, NetSales, ps)
    ensures ScalarRun(g, ps).orderCount == FirstFound(g, OrderCount, ps)
  {
    if ps != [] {
      var before, p := ps[..|ps| - 1], ps[|ps| - 1];
      ScalarRunFindsFirst(g, before);
      assert ps == before + [p];
      FirstFoundSnoc(g, NetSales, before, p);
      FirstFoundSnoc(g, OrderCount, before, p);
    }
  }

  /** A non-zero net sales or order count is announced in the scan's log. */
  lemma {:induction false} ScalarFindsLogged(g: Grid, ps: seq<Pos>)
    ensures var s := ScalarRun(g, ps);
            (s.netSales != 0.0 ==> FoundNetSales(s.netSales) in s.log) &&
            (s.orderCount != 0.0 ==> FoundOrderCount(s.orderCount) in s.log)
  {
    if ps != [] {
      ScalarFindsLogged(g, ps[..|ps| - 1]);
    }
  }

  /**
   * One cell of the labeled-scalar scan: when it is present and truthy, its
   * lower-cased text is tested for "net sales" and then for "order count", and
   * a field still at 0 takes the first number 1..3 cells to the right.
   */
  method InspectScalarCell(g: Grid, p: Pos, netSales: real, orderCount: real, log: seq<LogEvent>)
    returns (net: real, count: real, log': seq<LogEvent>)
    ensures ScalarState(net, count, log') == ScalarStep(g, ScalarState(netSales, orderCount, log), p)
  {
    net, count, log' := netSales, orderCount, log;
    if p in g && Truthy(g[p]) {
      var text := Lower(CellText(g[p]));
      if Contains(text, NetSales.name) && net == 0.0 {
        var found := ProbeRight(g, p.0, p.1, NetSales);
        if found.Some? {
          net := found.value;
          log' := log' + [FoundNetSales(net)];
        }
      }
      if Contains(text, OrderCount.name) && count == 0.0 {
        var found := ProbeRight(g, p.0, p.1, OrderCount);
        if found.Some? {
          count := found.value;
          log' := log' + [FoundOrderCount(count)];
        }
      }
    }
  }

  /** One row of the labeled-scalar scan: columns `c0..c1`, left to right. */
  method ScanScalarRow(g: Grid, row: int, c0: int, c1: int, ghost before: seq<Pos>,
                       netSales: real, orderCount: real, log: seq<LogEvent>)
    returns (net: real, count: real, log': seq<LogEvent>)
    requires ScalarState(netSales, orderCount, log) == ScalarRun(g, before)
    ensures ScalarState(net, count, log') == ScalarRun(g, before + RowPositions(row, c0, c1))
  {
    net, count, log' := netSales, orderCount, log;
    ghost var seen := before;
    var col := c0;
    while col <= c1
      invariant col == c0 || c0 <= col <= c1 + 1
      invariant seen == before + RowPositions(row, c0, col - 1)
      invariant ScalarState(net, count, log') == ScalarRun(g, seen)
      decreases c1 - col
    {
      ScalarRunSnoc(g, seen, (row, col));
      net, count, log' := InspectScalarCell(g, (row, col), net, count, log');
      AppendSnoc(before, RowPositions(row, c0, col - 1), (row, col));
      seen := seen + [(row, col)];
      col := col + 1;
    }
  }

  /**
   * Rows `range.s.r..min(range.e.r, 50)`, every column of the range, with
   * both fields starting at 0: each ends up as the first non-zero find of its
   * label in row-major order.
   */
  method ScanScalars(g: Grid, range: Range) returns (netSales: real, orderCount: real, log: seq<LogEvent>)
    ensures netSales == FirstFound(g, NetSales, ScalarArea(range))
    ensures orderCount == FirstFound(g, OrderCount, ScalarArea(range))
    ensures log == ScalarRun(g, ScalarArea(range)).log
  {
    netSales, orderCount, log := 0.0, 0.0, [];
    var last := Min(range.er, 50);
    ghost var seen: seq<Pos> := [];
    var row := range.sr;
    while row <= last
      invariant row == range.sr || range.sr <= row <= last + 1
      invariant seen == Positions(range.sr, row - 1, range.sc, range.ec)
      invariant ScalarState(netSales, orderCount, log) == ScalarRun(g, seen)
      decreases last - row
    {
      netSales, orderCount, log := ScanScalarRow(g, row, range.sc, range.ec, seen, netSales, orderCount, log);
      seen := seen + RowPositions(row, range.sc, range.ec);
      row := row + 1;
    }
    ScalarRunFindsFirst(g, seen);
  }

  // ---------------------------------------------------------------------------
  // Revenue-category scan
  // ---------------------------------------------------------------------------

  /** The locals the revenue-category scan updates: seven buckets in category order, and the log. */
  datatype RevenueState = RevenueState(buckets: seq<real>, log: seq<LogEvent>)

  const NoRevenue: seq<real> := [0.0, 0.0, 0.0, 0.0, 0.0, 0.0, 0.0]

  /** Category `k` at one cell: a bucket still at 0 takes the cell's hit, and the find is logged. */
  function CategoryStep(g: Grid, s: RevenueState, p: Pos, k: nat): (s': RevenueState)
    requires k < CategoryCount && |s.buckets| == CategoryCount
    ensures |s'.buckets| == CategoryCount
  {
    var h := Hit(g, CategoryRule(k), p);
    if s.buckets[k] == 0.0 && h.Some? then
      RevenueState(s.buckets[k := h.value], s.log + [FoundCategory(Category(k), h.value)])
    else s
  }

  /** Categories `0..n-1` at one cell, in declared order. */
  function CategoriesThrough(g: Grid, s: RevenueState, p: Pos, n: nat): (s': RevenueState)
    requires n <= CategoryCount && |s.buckets| == CategoryCount
    ensures |s'.buckets| == CategoryCount
  {
    if n == 0 then s else CategoryStep(g, CategoriesThrough(g, s, p, n - 1), p, n - 1)
  }

  /** The revenue-category scan's locals after visiting `ps` in order, from empty buckets. */
  function RevenueRun(g: Grid, ps: seq<Pos>): (s: RevenueState)
    ensures |s.buckets| == CategoryCount
  {
    if ps == [] then RevenueState(NoRevenue, [])
    else CategoriesThrough(g, RevenueRun(g, ps[..|ps| - 1]), ps[|ps| - 1], CategoryCount)
  }

  lemma RevenueRunSnoc(g: Grid, ps: seq<Pos>, p: Pos)
    ensures RevenueRun(g, ps + [p]) == CategoriesThrough(g, RevenueRun(g, ps), p, CategoryCount)
  {
    assert (ps + [p])[..|ps|] == ps;
  }

  /** Each label only touches its own bucket: bucket `k` changes at label `k` and nowhere else. */
  lemma {:induction false} CategoriesThroughBucket(g: Grid, s: RevenueState, p: Pos, n: nat, k: nat)
    requires n <= CategoryCount && |s.buckets| == CategoryCount && k < CategoryCount
    ensures CategoriesThrough(g, s, p, n).buckets[k] ==
            if k < n && s.buckets[k] == 0.0 && Hit(g, CategoryRule(k), p).Some? then Hit(g, CategoryRule(k), p).value
            else s.buckets[k]
  {
    if n > 0 {
      CategoriesThroughBucket(g, s, p, n - 1, k);
      var t := CategoriesThrough(g, s, p, n - 1);
      assert CategoriesThrough(g, s, p, n) == CategoryStep(g, t, p, n - 1);
      if k != n - 1 {
        assert CategoryStep(g, t, p, n - 1).buckets[k] == t.buckets[k];
      }
    }
  }

  /** Every bucket ends up as the first non-zero find of its label. */
  lemma {:induction false} RevenueRunFindsFirst(g: Grid, ps: seq<Pos>, k: nat)
    requires k < CategoryCount
    ensures RevenueRun(g, ps).buckets[k] == FirstFound(g, CategoryRule(k), ps)
  {
    if ps != [] {
      var before, p := ps[..|ps| - 1], ps[|ps| - 1];
      RevenueRunFindsFirst(g, before, k);
      CategoriesThroughBucket(g, RevenueRun(g, before), p, CategoryCount, k);
      assert ps == before + [p];
      FirstFoundSnoc(g, CategoryRule(k), before, p);
    }
  }

  /** The seven buckets the first-found rule gives over `ps`, in category order. */
  function Buckets(g: Grid, ps: seq<Pos>): (bs: seq<real>)
    ensures |bs| == CategoryCount
  {
    seq(CategoryCount, k requires 0 <= k < CategoryCount => FirstFound(g, CategoryRule(k), ps))
  }

  /** The revenue scan's buckets are the first-found values of the seven labels. */
  lemma RevenueRunBuckets(g: Grid, ps: seq<Pos>)
    ensures RevenueRun(g, ps).buckets == Buckets(g, ps)
  {
    forall k | 0 <= k < CategoryCount
      ensures RevenueRun(g, ps).buckets[k] == Buckets(g, ps)[k]
    {
      RevenueRunFindsFirst(g, ps, k);
    }
  }

  /** Categories `0..n-1` at one cell only append to the log. */
  lemma {:induction false} CategoriesThroughExtendsLog(g: Grid, s: RevenueState, p: Pos, n: nat)
    requires n <= CategoryCount && |s.buckets| == CategoryCount
    ensures s.log <= CategoriesThrough(g, s, p, n).log
  {
    if n > 0 {
      CategoriesThroughExtendsLog(g, s, p, n - 1);
    }
  }

  /** A label filling its bucket at a cell logs the find during that cell. */
  lemma {:induction false} CategoriesThroughLogsFind(g: Grid, s: RevenueState, p: Pos, n: nat, k: nat)
    requires k < n <= CategoryCount && |s.buckets| == CategoryCount
    requires s.buckets[k] == 0.0 && Hit(g, CategoryRule(k), p).Some?
    ensures FoundCategory(Category(k), Hit(g, CategoryRule(k), p).value) in CategoriesThrough(g, s, p, n).log
  {
    if k < n - 1 {
      CategoriesThroughLogsFind(g, s, p, n - 1, k);
    } else {
      CategoriesThroughBucket(g, s, p, k, k);
    }
  }

  /** Every category whose bucket is non-zero is announced in the scan's log. */
  lemma {:induction false} RevenueFindsLogged(g: Grid, ps: seq<Pos>, k: nat)
    requires k < CategoryCount
    ensures var s := RevenueRun(g, ps);
            s.buckets[k] != 0.0 ==> FoundCategory(Category(k), s.buckets[k]) in s.log
  {
    if ps != [] {
      var before, p := ps[..|ps| - 1], ps[|ps| - 1];
      var s := RevenueRun(g, before);
      CategoriesThroughBucket(g, s, p, CategoryCount, k);
      CategoriesThroughExtendsLog(g, s, p, CategoryCount);
      if s.buckets[k] != 0.0 {
        RevenueFindsLogged(g, before, k);
      } else if Hit(g, CategoryRule(k), p).Some? {
        CategoriesThroughLogsFind(g, s, p, CategoryCount, k);
      }
    }
  }

  /** A cell that is absent or falsy leaves the revenue scan's locals as they were. */
  lemma {:induction false} FalsyCellNoCategory(g: Grid, s: RevenueState, p: Pos, n: nat)
    requires n <= CategoryCount && |s.buckets| == CategoryCount
    requires !(p in g && Truthy(g[p]))
    ensures CategoriesThrough(g, s, p, n) == s
  {
    if n > 0 {
      FalsyCellNoCategory(g, s, p, n - 1);
    }
  }

  /**
   * The per-cell category loop (the `forEach` over the label map): for each
   * label in order that the cell's text contains, a bucket still at 0 takes
   * the first number above 100 in the five cells to the right.
   */
  method MatchCategories(g: Grid, p: Pos, text: string, revenues: seq<real>, log: seq<LogEvent>)
    returns (revenues': seq<real>, log': seq<LogEvent>)
    requires p in g && Truthy(g[p]) && text == Lower(CellText(g[p]))
    requires |revenues| == CategoryCount
    ensures RevenueState(revenues', log') == CategoriesThrough(g, RevenueState(revenues, log), p, CategoryCount)
  {
    revenues', log' := revenues, log;
    for k := 0 to CategoryCount
      invariant RevenueState(revenues', log') == CategoriesThrough(g, RevenueState(revenues, log), p, k)
    {
      var rule := CategoryRule(k);
      assert Hit(g, rule, p) == if Contains(text, rule.name) then Probe(g, p, rule) else None;
      if Contains(text, rule.name) && revenues'[k] == 0.0 {
        var found := ProbeRight(g, p.0, p.1, rule);
        if found.Some? {
          revenues' := revenues'[k := found.value];
          log' := log' + [FoundCategory(rule.name, found.value)];
        }
      }
    }
  }

  /** One row of the revenue-category scan: columns `c0..c1`, left to right. */
  method ScanRevenueRow(g: Grid, row: int, c0: int, c1: int, ghost before: seq<Pos>,
                        revenues: seq<real>, log: seq<LogEvent>)
    returns (revenues': seq<real>, log': seq<LogEvent>)
    requires RevenueState(revenues, log) == RevenueRun(g, before)
    ensures RevenueState(revenues', log') == RevenueRun(g, before + RowPositions(row, c0, c1))
  {
    revenues', log' := revenues, log;
    ghost var seen := before;
    var col := c0;
    while col <= c1
      invariant col == c0 || c0 <= col <= c1 + 1
      invariant seen == before + RowPositions(row, c0, col - 1)
      invariant RevenueState(revenues', log') == RevenueRun(g, seen)
      decreases c1 - col
    {
      var p := (row, col);
      RevenueRunSnoc(g, seen, p);
      if p in g && Truthy(g[p]) {
        var text := Lower(CellText(g[p]));
        revenues', log' := MatchCategories(g, p, text, revenues', log');
      } else {
        FalsyCellNoCategory(g, RevenueState(revenues', log'), p, CategoryCount);
      }
      AppendSnoc(before, RowPositions(row, c0, col - 1), p);
      seen := seen + [p];
      col := col + 1;
    }
  }

  /**
   * Rows `range.s.r..min(range.e.r, 100)`, every column of the range, all
   * buckets starting at 0: each ends up as the first non-zero find of its
   * label in row-major order, so either 0 or above 100.
   */
  method ScanRevenues(g: Grid, range: Range) returns (revenues: seq<real>, log: seq<LogEvent>)
    ensures revenues == Buckets(g, RevenueArea(range))
    ensures log == RevenueRun(g, RevenueArea(range)).log
  {
    revenues, log := NoRevenue, [];
    var last := Min(range.er, 100);
    ghost var seen: seq<Pos> := [];
    var row := range.sr;
    while row <= last
      invariant row == range.sr || range.sr <= row <= last + 1
      invariant seen == Positions(range.sr, row - 1, range.sc, range.ec)
      invariant RevenueState(revenues, log) == RevenueRun(g, seen)
      decreases last - row
    {
      revenues, log := ScanRevenueRow(g, row, range.sc, range.ec, seen, revenues, log);
      seen := seen + RowPositions(row, range.sc, range.ec);
      row := row + 1;
    }
    RevenueRunBuckets(g, seen);
  }

  // ---------------------------------------------------------------------------
  // Overlapping labels
  // ---------------------------------------------------------------------------

  /** A cell labelled with "oj beverages" also contains "beverage", and probes the same way. */
  lemma OjLabelIsBeverageLabel(g: Grid, p: Pos)
    ensures Hit(g, CategoryRule(6), p).Some? ==> Hit(g, CategoryRule(3), p) == Hit(g, CategoryRule(6), p)
  {
    if Hit(g, CategoryRule(6), p).Some? {
      var text := Lower(CellText(g[p]));
      ContainsSlice(text, "oj beverages", 3, 11);
      assert "oj beverages"[3..11] == "beverage";
    }
  }

  /** Whenever the "oj beverages" bucket is filled, so is the "beverage" bucket. */
  lemma OjFoundImpliesBeverageFound(g: Grid, ps: seq<Pos>)
    ensures FirstFound(g, CategoryRule(6), ps) != 0.0 ==> FirstFound(g, CategoryRule(3), ps) != 0.0
  {
    if FirstFound(g, CategoryRule(6), ps) != 0.0 {
      var k := FirstNonZeroHit(g, CategoryRule(6), ps);
      OjLabelIsBeverageLabel(g, ps[k]);
      FirstFoundNonZero(g, CategoryRule(3), ps, k);
    }
  }

  /** A non-zero field came from some non-zero hit. */
  lemma {:induction false} FirstNonZeroHit(g: Grid, rule: Rule, ps: seq<Pos>) returns (k: nat)
    requires FirstFound(g, rule, ps) != 0.0
    ensures k < |ps| && HitValue(g, rule, ps[k]) == FirstFound(g, rule, ps)
  {
    var before := ps[..|ps| - 1];
    if FirstFound(g, rule, before) != 0.0 {
      k := FirstNonZeroHit(g, rule, before);
      assert ps[k] == before[k];
    } else {
      k := |ps| - 1;
    }
  }
}
