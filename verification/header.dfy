/**
 * The header scan: the first ten dense rows, cell by cell in row-major order,
 * looking for the store pattern (which ends the scan) and the month pattern
 * (each match replacing the one before).
 */
module HeaderScan {
  import opened Wrappers
  import opened Text
  import opened Cells
  import opened Patterns
  import opened Events

  /** How many leading rows the header scan looks at. */
  const HeaderRowLimit: nat := 10

  /** The cells of `rows` in row-major order. */
  function Flatten(rows: seq<seq<Cell>>): seq<Cell>
  {
    if rows == [] then [] else rows[0] + Flatten(rows[1..])
  }

  lemma {:induction false} FlattenAppend(a: seq<seq<Cell>>, b: seq<seq<Cell>>)
    ensures Flatten(a + b) == Flatten(a) + Flatten(b)
  {
    if a == [] {
      assert a + b == b;
    } else {
      assert (a + b)[1..] == a[1..] + b;
      FlattenAppend(a[1..], b);
    }
  }

  /** The cells the header scan may visit, in the order it visits them. */
  function HeaderCells(rows: seq<seq<Cell>>): seq<Cell>
  {
    Flatten(rows[..if |rows| < HeaderRowLimit then |rows| else HeaderRowLimit])
  }

  /** What the two header patterns find in one cell's text (`String(row[j] || '')`). */
  datatype Sighting = Sighting(store: Option<string>, month: Option<string>)

  /** A store match at row `i`, column `j`, after `scanned` held none, decides both header fields. */
  lemma StoreFoundAt(rows: seq<seq<Cell>>, n: nat, i: nat, j: nat, scanned: seq<Cell>)
    requires n <= |rows| && i < n && j < |rows[i]|
    requires scanned == Flatten(rows[..i]) + rows[i][..j]
    requires NoStore(Sightings(scanned))
    requires Sight(rows[i][j]).store.Some?
    ensures HeaderStore(Sightings(Flatten(rows[..n]))) == Sight(rows[i][j]).store.value
    ensures HeaderMonth(Sightings(Flatten(rows[..n]))) == OrEmpty(LastMonth(Sightings(scanned)))
    ensures HeaderLog(Sightings(Flatten(rows[..n]))) ==
            MonthEvents(Sightings(scanned)) + [FoundStore(Sight(rows[i][j]).store.value)]
  {
    var rest := rows[i][j + 1..] + Flatten(rows[i + 1..n]);
    FlattenSplit(rows, n, i, j);
    SightingsAppend(scanned + [rows[i][j]], rest);
    SightingsSnoc(scanned, rows[i][j]);
    StoreStopsScan(Sightings(scanned), Sight(rows[i][j]), Sightings(rest));
  }

  /** The month text the scan holds: the matched text, or '' when nothing matched. */
  function OrEmpty(m: Option<string>): string
  {
    if m.Some? then m.value else ""
  }

  /** No sighting in `ss` carries a store number. */
  predicate NoStore(ss: seq<Sighting>)
  {
    forall i :: 0 <= i < |ss| ==> ss[i].store.None?
  }

  function Sight(c: Cell): Sighting
  {
    Sighting(StoreNumberOf(CellText(c)), MonthOf(CellText(c)))
  }

  /**
   * A cell that is not text is invisible to both scans: it sights neither a
   * store nor a month, and its lower-cased text contains no label.
   */
  lemma NonTextCellUnseen(c: Cell)
    requires !c.Text?
    ensures Sight(c) == Sighting(None, None)
    ensures forall name :: |name| > 0 ==> !Contains(Lower(CellText(c)), name)
  {
    assert CellText(c) == "";
    assert StoreMatchIndex("", 0) == 0;
    assert MonthMatchIndex("", 0) == 0;
  }

  function Sightings(cells: seq<Cell>): (ss: seq<Sighting>)
    ensures |ss| == |cells|
  {
    seq(|cells|, k requires 0 <= k < |cells| => Sight(cells[k]))
  }

  lemma SightingsSnoc(cells: seq<Cell>, c: Cell)
    ensures Sightings(cells + [c]) == Sightings(cells) + [Sight(c)]
  {
    assert forall k :: 0 <= k < |cells| ==> (cells + [c])[k] == cells[k];
  }

  lemma SightingsAppend(a: seq<Cell>, b: seq<Cell>)
    ensures Sightings(a + b) == Sightings(a) + Sightings(b)
  {
    var l, r := Sightings(a + b), Sightings(a) + Sightings(b);
    forall k | 0 <= k < |l|
      ensures l[k] == r[k]
    {
      if k < |a| {
        assert (a + b)[k] == a[k];
      } else {
        assert (a + b)[k] == b[k - |a|];
      }
    }
    assert l == r;
  }

  /** The index of the first sighting of a store number, or |ss| when there is none. */
  function StoreIndex(ss: seq<Sighting>): (k: nat)
    ensures k <= |ss|
    ensures k < |ss| ==> ss[k].store.Some?
    ensures forall i :: 0 <= i < k ==> ss[i].store.None?
  {
    if ss == [] then 0
    else if ss[0].store.Some? then 0
    else 1 + StoreIndex(ss[1..])
  }

  /** The last month sighting, if there is one. */
  function LastMonth(ss: seq<Sighting>): (m: Option<string>)
    ensures m.None? <==> forall i :: 0 <= i < |ss| ==> ss[i].month.None?
    ensures m.Some? ==> exists k :: 0 <= k < |ss| && ss[k].month == m &&
                          forall i :: k < i < |ss| ==> ss[i].month.None?
  {
    if ss == [] then None
    else if ss[|ss| - 1].month.Some? then ss[|ss| - 1].month
    else LastMonth(ss[..|ss| - 1])
  }

  /** The store number the header scan settles on: that of the first store sighting, or "". */
  function HeaderStore(ss: seq<Sighting>): string
  {
    var k := StoreIndex(ss);
    if k < |ss| then ss[k].store.value else ""
  }

  /** The month the header scan settles on: the last month sighting strictly before the store cell, or "". */
  function HeaderMonth(ss: seq<Sighting>): string
  {
    OrEmpty(LastMonth(ss[..StoreIndex(ss)]))
  }

  /** The month events the scan logs over `ss`, in scan order: one per month sighting. */
  function MonthEvents(ss: seq<Sighting>): (log: seq<LogEvent>)
    ensures |log| <= |ss|
  {
    if ss == [] then []
    else
      var last := ss[|ss| - 1];
      MonthEvents(ss[..|ss| - 1]) + if last.month.Some? then [FoundMonth(last.month.value)] else []
  }

  /**
   * The header scan's log: the month events of the cells before the first
   * store sighting, then that sighting's store event when there is one.
   */
  function HeaderLog(ss: seq<Sighting>): seq<LogEvent>
  {
    var k := StoreIndex(ss);
    MonthEvents(ss[..k]) + if k < |ss| then [FoundStore(ss[k].store.value)] else []
  }

  lemma MonthEventsSnoc(ss: seq<Sighting>, s: Sighting)
    ensures MonthEvents(ss + [s]) == MonthEvents(ss) + if s.month.Some? then [FoundMonth(s.month.value)] else []
  {
    assert (ss + [s])[..|ss|] == ss;
  }

  /** The month events are month events only. */
  lemma {:induction false} MonthEventsKinds(ss: seq<Sighting>)
    ensures forall e :: e in MonthEvents(ss) ==> e.FoundMonth?
  {
    if ss != [] {
      MonthEventsKinds(ss[..|ss| - 1]);
    }
  }

  /** The last month sighted is among the month events. */
  lemma {:induction false} LastMonthLogged(ss: seq<Sighting>)
    ensures LastMonth(ss).Some? ==> FoundMonth(LastMonth(ss).value) in MonthEvents(ss)
  {
    if ss != [] && ss[|ss| - 1].month.None? {
      LastMonthLogged(ss[..|ss| - 1]);
    }
  }

  /**
   * What the header log says: it ends with the store event when a store was
   * sighted, it holds the event of the month kept, it holds store and month
   * events only, and it has at most one event per visited cell.
   */
  lemma HeaderLogFacts(ss: seq<Sighting>)
    ensures HeaderStore(ss) != "" ==>
              |HeaderLog(ss)| > 0 && HeaderLog(ss)[|HeaderLog(ss)| - 1] == FoundStore(HeaderStore(ss))
    ensures HeaderMonth(ss) != "" ==> FoundMonth(HeaderMonth(ss)) in HeaderLog(ss)
    ensures forall e :: e in HeaderLog(ss) ==> e.FoundStore? || e.FoundMonth?
    ensures |HeaderLog(ss)| <= |ss|
  {
    var k := StoreIndex(ss);
    MonthEventsKinds(ss[..k]);
    LastMonthLogged(ss[..k]);
  }

  /** A store sighting always carries five digits, so HeaderStore is "" or a five-digit string. */
  lemma HeaderStoreShape(cells: seq<Cell>)
    ensures var r := HeaderStore(Sightings(cells)); r == "" || (|r| == 5 && AllDigits(r))
  {
    var ss := Sightings(cells);
    var k := StoreIndex(ss);
    if k < |ss| {
      assert ss[k] == Sight(cells[k]);
    }
  }

  /**
   * The scan stops at the first store sighting: a month on that cell or on any
   * later cell is never seen, and the store number is that cell's.
   */
  lemma StoreStopsScan(before: seq<Sighting>, s: Sighting, after: seq<Sighting>)
    requires NoStore(before)
    requires s.store.Some?
    ensures HeaderStore(before + [s] + after) == s.store.value
    ensures HeaderMonth(before + [s] + after) == OrEmpty(LastMonth(before))
    ensures HeaderLog(before + [s] + after) == MonthEvents(before) + [FoundStore(s.store.value)]
  {
    var ss := before + [s] + after;
    assert ss[|before|] == s;
    assert forall i :: 0 <= i < |before| ==> ss[i] == before[i];
    assert StoreIndex(ss) == |before|;
    assert ss[..|before|] == before;
  }

  /** Without a store sighting every cell is visited and the month is the last one seen. */
  lemma NoStoreScansAll(ss: seq<Sighting>)
    requires NoStore(ss)
    ensures HeaderStore(ss) == ""
    ensures HeaderMonth(ss) == OrEmpty(LastMonth(ss))
    ensures HeaderLog(ss) == MonthEvents(ss)
  {
    assert ss[..StoreIndex(ss)] == ss;
  }

  lemma LastMonthSnoc(ss: seq<Sighting>, s: Sighting)
    ensures LastMonth(ss + [s]) == if s.month.Some? then s.month else LastMonth(ss)
  {
    assert (ss + [s])[..|ss|] == ss;
  }

  /** The flattened rows split around the cell at row `i`, column `j`. */
  lemma FlattenSplit(rows: seq<seq<Cell>>, n: nat, i: nat, j: nat)
    requires n <= |rows| && i < n && j < |rows[i]|
    ensures Flatten(rows[..n]) ==
            (Flatten(rows[..i]) + rows[i][..j]) + [rows[i][j]] + (rows[i][j + 1..] + Flatten(rows[i + 1..n]))
  {
    assert rows[..n] == rows[..i] + rows[i..n];
    FlattenAppend(rows[..i], rows[i..n]);
    assert rows[i..n][1..] == rows[i + 1..n];
    assert rows[i] == rows[i][..j] + [rows[i][j]] + rows[i][j + 1..];
  }

  /**
   * The scan state after visiting `cells` without a store match: the month
   * held is the last one sighted and the log holds their month events.
   */
  predicate Scanning(cells: seq<Cell>, month: string, log: seq<LogEvent>)
  {
    NoStore(Sightings(cells)) &&
    month == OrEmpty(LastMonth(Sightings(cells))) &&
    log == MonthEvents(Sightings(cells))
  }

  /**
   * The scan state when the cell `c`, visited after `cells`, is the first
   * store match: the store event closes the log.
   */
  predicate Stopped(cells: seq<Cell>, c: Cell, store: string, month: string, log: seq<LogEvent>)
  {
    NoStore(Sightings(cells)) &&
    Sight(c).store == Some(store) &&
    month == OrEmpty(LastMonth(Sightings(cells))) &&
    log == MonthEvents(Sightings(cells)) + [FoundStore(store)]
  }

  /** Visiting cell `j` of `row` extends the visited cells by that cell. */
  lemma VisitOneMore(done: seq<Cell>, row: seq<Cell>, j: nat)
    requires j < |row|
    ensures done + row[..j + 1] == (done + row[..j]) + [row[j]]
  {
    assert row[..j + 1] == row[..j] + [row[j]];
  }

  /** One more cell without a store match: the month is replaced, and logged, when the cell has one. */
  lemma ScanningSnoc(cells: seq<Cell>, c: Cell, month: string, log: seq<LogEvent>)
    requires Scanning(cells, month, log)
    requires Sight(c).store.None?
    ensures var m := Sight(c).month;
            Scanning(cells + [c],
                     if m.Some? then m.value else month,
                     if m.Some? then log + [FoundMonth(m.value)] else log)
  {
    SightingsSnoc(cells, c);
    LastMonthSnoc(Sightings(cells), Sight(c));
    MonthEventsSnoc(Sightings(cells), Sight(c));
  }

  /** A store match on the next cell stops the scan with the store event last in the log. */
  lemma ScanningStops(cells: seq<Cell>, c: Cell, month: string, log: seq<LogEvent>)
    requires Scanning(cells, month, log)
    requires Sight(c).store.Some?
    ensures Stopped(cells, c, Sight(c).store.value, month, log + [FoundStore(Sight(c).store.value)])
  {
  }

  lemma FlattenSnoc(rows: seq<seq<Cell>>, i: nat)
    requires i < |rows|
    ensures Flatten(rows[..i + 1]) == Flatten(rows[..i]) + rows[i]
  {
    assert rows[..i + 1] == rows[..i] + [rows[i]];
    FlattenAppend(rows[..i], [rows[i]]);
    assert Flatten([rows[i]]) == rows[i] + Flatten([]);
  }

  /**
   * One row of the header scan, after the cells `done` held no store match:
   * cell by cell until the first store match (reported with its column as
   * `stop`) or the end of the row (`stop == |row|`), each month match
   * replacing the month held so far.
   */
  method ScanHeaderRow(row: seq<Cell>, ghost done: seq<Cell>, month: string, log: seq<LogEvent>)
    returns (storeNumber: string, month': string, log': seq<LogEvent>, ghost stop: nat)
    requires Scanning(done, month, log)
    ensures stop <= |row|
    ensures stop < |row| <==> storeNumber != ""
    ensures stop == |row| ==> Scanning(done + row, month', log')
    ensures stop < |row| ==> Stopped(done + row[..stop], row[stop], storeNumber, month', log')
  {
    storeNumber, month', log' := "", month, log;
    var j := 0;
    assert done + row[..j] == done;
    while j < |row|
      invariant 0 <= j <= |row|
      invariant Scanning(done + row[..j], month', log')
    {
      var cell := CellText(row[j]);
      var storeMatch := StoreNumberOf(cell);
      if storeMatch.Some? {
        ScanningStops(done + row[..j], row[j], month', log');
        storeNumber := storeMatch.value;
        log' := log' + [FoundStore(storeNumber)];
        return storeNumber, month', log', j;
      }
      ScanningSnoc(done + row[..j], row[j], month', log');
      VisitOneMore(done, row, j);
      var monthMatch := MonthOf(cell);
      if monthMatch.Some? {
        month' := monthMatch.value;
        log' := log' + [FoundMonth(month')];
      }
      j := j + 1;
    }
    assert row[..j] == row;
    stop := j;
  }

  /** A scan stopped at row `i`, column `j` has settled both header fields and its log. */
  lemma StoppedScan(rows: seq<seq<Cell>>, n: nat, i: nat, j: nat, store: string, month: string, log: seq<LogEvent>)
    requires n <= |rows| && i < n && j < |rows[i]|
    requires Stopped(Flatten(rows[..i]) + rows[i][..j], rows[i][j], store, month, log)
    ensures store == HeaderStore(Sightings(Flatten(rows[..n])))
    ensures month == HeaderMonth(Sightings(Flatten(rows[..n])))
    ensures log == HeaderLog(Sightings(Flatten(rows[..n])))
  {
    StoreFoundAt(rows, n, i, j, Flatten(rows[..i]) + rows[i][..j]);
  }

  /** A scan that visited every cell without a store match has settled both header fields. */
  lemma FinishedScan(cells: seq<Cell>, month: string, log: seq<LogEvent>)
    requires Scanning(cells, month, log)
    ensures HeaderStore(Sightings(cells)) == ""
    ensures month == HeaderMonth(Sightings(cells))
    ensures log == HeaderLog(Sightings(cells))
  {
    NoStoreScansAll(Sightings(cells));
  }

  /**
   * The header scan over the dense rows: row-major over the first ten rows,
   * stopping at the first store match; a month match on a cell that is not a
   * store match replaces the month found so far.
   */
  method ScanHeader(rows: seq<seq<Cell>>) returns (storeNumber: string, month: string, log: seq<LogEvent>)
    ensures storeNumber == HeaderStore(Sightings(HeaderCells(rows)))
    ensures month == HeaderMonth(Sightings(HeaderCells(rows)))
    ensures log == HeaderLog(Sightings(HeaderCells(rows)))
  {
    storeNumber, month, log := "", "", [];
    var n := if |rows| < HeaderRowLimit then |rows| else HeaderRowLimit;
    var i := 0;
    while i < n
      invariant 0 <= i <= n
      invariant Scanning(Flatten(rows[..i]), month, log)
    {
      ghost var stop;
      var store;
      store, month, log, stop := ScanHeaderRow(rows[i], Flatten(rows[..i]), month, log);
      if store != "" {
        StoppedScan(rows, n, i, stop, store, month, log);
        return store, month, log;
      }
      FlattenSnoc(rows, i);
      i := i + 1;
    }
    FinishedScan(Flatten(rows[..n]), month, log);
  }
}
