/**
 * Worked instances of the header patterns, the header scan and the address
 * table on the header lines of the demo workbook ("10519 - Raymore, MO - GC",
 * "April 2025").
 */
module Examples {
  import opened Wrappers
  import opened Text
  import opened Cells
  import opened Patterns
  import opened HeaderScan
  import opened Records

  const StoreLine: string := "10519 - Raymore, MO - GC"
  const MonthLine: string := "April 2025"

  /** The first comma after the store line's dash is the one after the city. */
  lemma StoreLineComma()
    ensures FirstComma(StoreLine, 7) == 15
  {
    var s := StoreLine;
    assert s[15] == ',';
    forall i | 7 <= i < 15
      ensures s[i] != ','
    {
      assert s[i] == " Raymore"[i - 7];
    }
    FirstCommaAt(s, 7, 15);
  }

  /** The city and state part of the store line starts right after its first dash. */
  lemma StoreLineCityState()
    ensures CityStateAt(StoreLine, 7)
  {
    var s := StoreLine;
    StoreLineComma();
    assert s[16] == ' ' && s[17] == 'M' && s[18] == 'O';
    assert SkipSpaces(s, 16) == 17;
    assert UpperPairAt(s, 17);
  }

  /** The store pattern matches at the very start of the store line. */
  lemma StoreLineMatchesAtStart()
    ensures StoreMatchAt(StoreLine, 0)
  {
    var s := StoreLine;
    assert s[0..5] == "10519";
    DigitsAreAllDigits(s[0..5]);
    assert s[5] == ' ' && s[6] == '-';
    assert SkipSpaces(s, 5) == 6;
    StoreLineCityState();
  }

  /** The store pattern captures the five digits before the dash. */
  lemma StoreLineMatches()
    ensures StoreNumberOf(StoreLine) == Some("10519")
  {
    StoreLineMatchesAtStart();
    StoreNumberAtStart(StoreLine);
    assert StoreLine[0..5] == "10519";
  }

  /** A text whose store match starts at its first character yields its first five characters. */
  lemma StoreNumberAtStart(s: string)
    requires StoreMatchAt(s, 0)
    ensures StoreNumberOf(s) == Some(s[0..5])
  {
    assert StoreMatchIndex(s, 0) == 0;
  }

  /** The month pattern yields the month name and the year joined by one space. */
  lemma MonthLineMatches()
    ensures MonthOf(MonthLine) == Some("April 2025")
  {
    var s := MonthLine;
    assert s[0] == 'A' && s[1] == 'p';
    assert !OccursAt(s, MonthName(0), 0) by { assert MonthName(0)[0] == 'J'; }
    assert !OccursAt(s, MonthName(1), 0) by { assert MonthName(1)[0] == 'F'; }
    assert !OccursAt(s, MonthName(2), 0) by { assert MonthName(2)[0] == 'M'; }
    assert OccursAt(s, MonthName(3), 0) by { assert s[0..5] == "April"; }
    assert MonthNameIndex(s, 0, 0) == 3;
    assert SkipSpaces(s, 5) == 6;
    assert s[6..10] == "2025";
    DigitsAreAllDigits(s[6..10]);
    assert YearAt(s, 5) == Some("2025");
    assert MonthName(3) + " " + s[6..10] == "April 2025";
    assert MonthYearAt(s, 0) == Some("April 2025");
  }

  /** The month line holds no store match: no five digits start anywhere in it. */
  lemma MonthLineHasNoStore()
    ensures StoreNumberOf(MonthLine) == None
  {
    var s := MonthLine;
    forall i | 0 <= i < |s|
      ensures !StoreMatchAt(s, i)
    {
      if i + 5 <= |s| {
        assert !IsDigit(s[i]);
        assert s[i..i + 5][0] == s[i];
      }
    }
    StoreNumberIsLeftmostMatch(s);
  }

  /** Two one-cell header rows are read as their two cells, in order. */
  lemma TwoRowSightings(x: Cell, y: Cell)
    ensures Sightings(HeaderCells([[x], [y]])) == [Sight(x), Sight(y)]
  {
    TwoRowCells(x, y);
    var ss := Sightings([x, y]);
    assert ss[0] == Sight(x) && ss[1] == Sight(y);
  }

  lemma TwoRowCells(x: Cell, y: Cell)
    ensures HeaderCells([[x], [y]]) == [x, y]
  {
    var rows := [[x], [y]];
    assert rows[..2] == rows && rows[1..][1..] == [];
    assert Flatten(rows[1..]) == [y] + Flatten([]);
  }

  /**
   * Over two sightings, a store first stops the scan at once: the month is
   * empty whatever either sighting holds, and only the store is logged.
   */
  lemma StoreThenAnything(a: Sighting, b: Sighting)
    requires a.store.Some?
    ensures HeaderStore([a, b]) == a.store.value
    ensures HeaderMonth([a, b]) == ""
    ensures HeaderLog([a, b]) == [Events.FoundStore(a.store.value)]
  {
    var ss := [a, b];
    assert ss[..0] == [];
  }

  /**
   * Over two sightings, a month without a store and then a store, the scan
   * keeps the month, stops on the store and logs both in that order.
   */
  lemma MonthThenStore(a: Sighting, b: Sighting)
    requires a.store.None? && a.month.Some? && b.store.Some?
    ensures HeaderStore([a, b]) == b.store.value
    ensures HeaderMonth([a, b]) == a.month.value
    ensures HeaderLog([a, b]) == [Events.FoundMonth(a.month.value), Events.FoundStore(b.store.value)]
  {
    var ss := [a, b];
    assert StoreIndex(ss[1..]) == 0;
    assert StoreIndex(ss) == 1;
    assert ss[..1] == [a];
    assert [a][..0] == [];
    assert MonthEvents([a]) == [Events.FoundMonth(a.month.value)];
  }

  /**
   * With the store line first, the scan stops on it: the month line below it
   * is never read and the month stays empty.
   */
  lemma StoreFirstHidesMonth()
    ensures var cells := HeaderCells([[Text(StoreLine)], [Text(MonthLine)]]);
            HeaderStore(Sightings(cells)) == "10519" &&
            HeaderMonth(Sightings(cells)) == "" &&
            HeaderLog(Sightings(cells)) == [Events.FoundStore("10519")]
  {
    TwoRowSightings(Text(StoreLine), Text(MonthLine));
    StoreLineMatches();
    StoreThenAnything(Sight(Text(StoreLine)), Sight(Text(MonthLine)));
  }

  /** With the month line first, the scan keeps its month and then stops on the store line. */
  lemma MonthFirstKeepsMonth()
    ensures var cells := HeaderCells([[Text(MonthLine)], [Text(StoreLine)]]);
            HeaderStore(Sightings(cells)) == "10519" &&
            HeaderMonth(Sightings(cells)) == "April 2025" &&
            HeaderLog(Sightings(cells)) == [Events.FoundMonth("April 2025"), Events.FoundStore("10519")]
  {
    TwoRowSightings(Text(MonthLine), Text(StoreLine));
    StoreLineMatches();
    MonthLineMatches();
    MonthLineHasNoStore();
    MonthThenStore(Sight(Text(MonthLine)), Sight(Text(StoreLine)));
  }

  /** The demo store's address comes from the table. */
  lemma DemoStoreAddress()
    ensures AddressOf("10519") == "400 N Foxridge Raymore MO"
  {
    AddressLookup("10519");
    assert ListedStore(0) == "10519";
  }
}
