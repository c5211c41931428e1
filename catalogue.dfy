/**
 * The satellite catalogue as the selector loads it: the records, the list
 * stores that hold them, the inputs the loader reads (the data directory's
 * listing, the category files, the satellite-data lookup), and what one
 * loading pass produces from them.
 */
module Catalogue {
  import opened Wrappers
  import opened GlibText
  import opened GlibNumber
  import opened FilterMaps

  /** The Julian-date epoch of a satellite's elements; carried, never computed with. */
  datatype Epoch = Epoch(julianDate: real)

  /** The part of a satellite record the selector reads: the nickname and the epoch. */
  datatype SatData = SatData(nickname: string, epoch: Epoch)

  /** One row of a list store: the name, catalogue-number and epoch columns. */
  datatype Row = Row(name: string, catnum: int, epoch: Epoch)

  /** The sort function a store uses for its name column: the toolkit's
      default string comparison, or the selector's compare_func. */
  datatype SortFunc = ToolkitDefault | CompareFunc

  /** The sort column and order a store is set to. */
  datatype SortColumn = Unsorted | NameAscending

  /** A list store: its rows in insertion order and its sorting state. */
  datatype Store = Store(rows: seq<Row>, nameSort: SortFunc, sortColumn: SortColumn)

  /** Opening a category file either fails, or yields the lines that reading
      returns normally, in order, up to the first read that does not. */
  datatype CatFile = Unopenable | Readable(lines: seq<string>)

  /** Opening the data directory either fails or yields its entry names
      in enumeration order. */
  datatype DataDir = DirUnopenable | Dir(entries: seq<string>)

  /** A category: its combo-box label and its rows. */
  datatype Group = Group(title: string, rows: seq<Row>)

  /** What loading produces: the combo-box labels and the stores, index by index. */
  datatype Loaded = Loaded(labels: seq<string>, stores: seq<Store>)

  type SatLookup = int -> Option<SatData>
  type CatOpener = string -> CatFile

  const AllSatellites: string := "All satellites"
  const SatPattern: string := ".sat"
  const CatPattern: string := ".cat"

  /** A store as gtk_list_store_new leaves it. */
  function NewStore(rows: seq<Row>): Store {
    Store(rows, ToolkitDefault, Unsorted)
  }

  /** compare_func: the rows' names compared with g_ascii_strcasecmp. */
  function CompareRows(a: Row, b: Row): (r: int)
    ensures r == 0 <==> CaseFolded(a.name) == CaseFolded(b.name)
  {
    CaseCmpZeroIff(a.name, b.name);
    AsciiStrCaseCmp(a.name, b.name)
  }

  /** The row for a catalogue number, when the satellite-data lookup succeeds. */
  function Lookup(catnum: int, readSat: SatLookup): (r: Option<Row>)
    ensures r.Some? <==> readSat(catnum).Some?
    ensures r.Some? ==> r.value == Row(readSat(catnum).value.nickname, catnum, readSat(catnum).value.epoch)
  {
    match readSat(catnum)
    case Some(sat) => Some(Row(sat.nickname, catnum, sat.epoch))
    case None => None
  }

  /** The catalogue number a satellite file's name gives: the text before its first dot. */
  function FileCatnum(fname: string): int {
    ParseCatnum(BeforeFirstDot(fname))
  }

  /** "25544.sat" stands for satellite 25544. */
  lemma FileCatnumOfDecimal(n: nat, rest: string)
    requires n <= MaxGint
    ensures FileCatnum(Decimal(n) + "." + rest) == n
  {
    assert '.' !in Decimal(n) by {
      forall k | 0 <= k < |Decimal(n)| ensures Decimal(n)[k] != '.' {
        assert DigitValue(Decimal(n)[k]) < 10;
      }
    }
    BeforeFirstDotOf(Decimal(n), rest);
    ParseDecimal(n);
  }

  /** What a directory entry contributes to the "All satellites" store. */
  function SatEntryRow(readSat: SatLookup, fname: string): Option<Row> {
    if HasSubstring(fname, SatPattern) then Lookup(FileCatnum(fname), readSat) else None
  }

  function SatEntry(readSat: SatLookup): string -> Option<Row> {
    fname => SatEntryRow(readSat, fname)
  }

  /** What a later line of a category file contributes to its store. */
  function CatLineRow(readSat: SatLookup, line: string): Option<Row> {
    Lookup(ParseCatnum(Strip(line)), readSat)
  }

  function CatLine(readSat: SatLookup): string -> Option<Row> {
    line => CatLineRow(readSat, line)
  }

  /** The group a category file gives: none when it cannot be opened or its
      first line cannot be read; otherwise the stripped first line as label
      and a row for each later line whose number resolves. */
  function CatGroup(file: CatFile, readSat: SatLookup): (g: Option<Group>)
    ensures file.Readable? && |file.lines| >= 1 ==> g.Some?
    ensures g.Some? ==>
      && file.Readable? && |file.lines| >= 1
      && g.value.title == Strip(file.lines[0])
      && g.value.rows == FilterMap(file.lines[1..], CatLine(readSat))
  {
    match file
    case Unopenable => None
    case Readable(lines) =>
      if |lines| == 0 then None
      else Some(Group(Strip(lines[0]), FilterMap(lines[1..], CatLine(readSat))))
  }

  /** What a directory entry contributes in the second pass. */
  function CatEntryGroup(openCat: CatOpener, readSat: SatLookup, fname: string): Option<Group> {
    if HasSubstring(fname, CatPattern) then CatGroup(openCat(fname), readSat) else None
  }

  function CatEntry(openCat: CatOpener, readSat: SatLookup): string -> Option<Group> {
    fname => CatEntryGroup(openCat, readSat, fname)
  }

  /** The rows of the "All satellites" store. */
  function AllRows(names: seq<string>, readSat: SatLookup): seq<Row> {
    FilterMap(names, SatEntry(readSat))
  }

  /** The category groups, in the order of their files in the listing. */
  function Groups(names: seq<string>, openCat: CatOpener, readSat: SatLookup): seq<Group> {
    FilterMap(names, CatEntry(openCat, readSat))
  }

  function Labels(gs: seq<Group>): (ls: seq<string>)
    ensures |ls| == |gs|
    ensures forall k :: 0 <= k < |gs| ==> ls[k] == gs[k].title
  {
    if |gs| == 0 then [] else Labels(gs[..|gs| - 1]) + [gs[|gs| - 1].title]
  }

  function GroupStores(gs: seq<Group>): (ss: seq<Store>)
    ensures |ss| == |gs|
    ensures forall k :: 0 <= k < |gs| ==> ss[k] == NewStore(gs[k].rows)
  {
    if |gs| == 0 then [] else GroupStores(gs[..|gs| - 1]) + [NewStore(gs[|gs| - 1].rows)]
  }

  /** A group added at the end adds its label and its store at the end
      (after whatever labels and stores came before the groups). */
  lemma GroupsSnoc(labels: seq<string>, stores: seq<Store>, gs: seq<Group>, g: Group)
    ensures labels + Labels(gs + [g]) == labels + Labels(gs) + [g.title]
    ensures stores + GroupStores(gs + [g]) == stores + GroupStores(gs) + [NewStore(g.rows)]
  {
    assert (gs + [g])[..|gs|] == gs;
  }

  /** One loading pass: "All satellites" first, then one store per category
      group; labels and stores are appended together, so they correspond. */
  function Load(dir: DataDir, openCat: CatOpener, readSat: SatLookup): (l: Loaded)
    ensures |l.labels| == |l.stores| >= 1
    ensures l.labels[0] == AllSatellites
    ensures forall k :: 0 <= k < |l.stores| ==> l.stores[k].nameSort == ToolkitDefault && l.stores[k].sortColumn == Unsorted
    ensures dir.DirUnopenable? ==> l.labels == [AllSatellites] && l.stores == [NewStore([])]
  {
    match dir
    case DirUnopenable => Loaded([AllSatellites], [NewStore([])])
    case Dir(names) =>
      var gs := Groups(names, openCat, readSat);
      Loaded([AllSatellites] + Labels(gs), [NewStore(AllRows(names, readSat))] + GroupStores(gs))
  }

  /** The stores and labels of a directory that opens, after whatever came
      before them: the "All satellites" store and label, then the groups'. */
  lemma LoadOfDir(names: seq<string>, openCat: CatOpener, readSat: SatLookup, stores: seq<Store>, labels: seq<string>)
    ensures var gs := FilterMap(names, CatEntry(openCat, readSat));
      stores + [NewStore(FilterMap(names, SatEntry(readSat)))] + GroupStores(gs) == stores + Load(Dir(names), openCat, readSat).stores
    ensures var gs := FilterMap(names, CatEntry(openCat, readSat));
      labels + [AllSatellites] + Labels(gs) == labels + Load(Dir(names), openCat, readSat).labels
  {
    var gs := FilterMap(names, CatEntry(openCat, readSat));
    var all := NewStore(FilterMap(names, SatEntry(readSat)));
    assert Load(Dir(names), openCat, readSat) == Loaded([AllSatellites] + Labels(gs), [all] + GroupStores(gs));
    AppendAssoc(stores, [all], GroupStores(gs));
    AppendAssoc(labels, [AllSatellites], Labels(gs));
  }

  // ---------------------------------------------------------------------------
  // What a loading pass contains
  // ---------------------------------------------------------------------------

  /**
   * The "All satellites" rows: entry i of the listing gives a row exactly when
   * its name contains ".sat" anywhere and the lookup succeeds for the number
   * before its first dot; the rows keep listing order and carry that number.
   */
  lemma AllRowsFromSatFiles(names: seq<string>, readSat: SatLookup)
    ensures var rows, idx := AllRows(names, readSat), Hits(names, SatEntry(readSat));
      && |idx| == |rows|
      && (forall k, l :: 0 <= k < l < |idx| ==> idx[k] < idx[l])
      && (forall i :: 0 <= i < |names| ==>
            (i in idx <==> HasSubstring(names[i], SatPattern) && readSat(FileCatnum(names[i])).Some?))
      && (forall k :: 0 <= k < |idx| ==>
            && HasSubstring(names[idx[k]], SatPattern)
            && rows[k].catnum == FileCatnum(names[idx[k]])
            && readSat(rows[k].catnum) == Some(SatData(rows[k].name, rows[k].epoch)))
  {
    FilterMapHits(names, SatEntry(readSat));
  }

  /**
   * The rows of a category: later line j gives a row exactly when the lookup
   * succeeds for its stripped number; the rows keep line order and carry it.
   */
  lemma GroupRowsFromLines(lines: seq<string>, readSat: SatLookup)
    ensures var rows, idx := FilterMap(lines, CatLine(readSat)), Hits(lines, CatLine(readSat));
      && |idx| == |rows|
      && (forall k, l :: 0 <= k < l < |idx| ==> idx[k] < idx[l])
      && (forall j :: 0 <= j < |lines| ==> (j in idx <==> readSat(ParseCatnum(Strip(lines[j]))).Some?))
      && (forall k :: 0 <= k < |idx| ==>
            && rows[k].catnum == ParseCatnum(Strip(lines[idx[k]]))
            && readSat(rows[k].catnum) == Some(SatData(rows[k].name, rows[k].epoch)))
  {
    FilterMapHits(lines, CatLine(readSat));
  }

  /**
   * What a category file's group holds: there is one exactly when the file
   * opens and its first line reads; its label is that line without its
   * white-space margins and has no white space at either end; each of its
   * rows comes from a later line, carries that line's stripped and parsed
   * number, and holds what the lookup gives for it.
   */
  lemma CatGroupContents(file: CatFile, readSat: SatLookup)
    ensures var g := CatGroup(file, readSat);
      && (g.Some? <==> file.Readable? && |file.lines| >= 1)
      && (g.Some? ==>
            && TrimmedEnds(g.value.title)
            && PaddedAt(file.lines[0], g.value.title, |file.lines[0]| - |StripLeading(file.lines[0])|)
            && |g.value.rows| <= |file.lines| - 1
            && (forall k :: 0 <= k < |g.value.rows| ==>
                  && readSat(g.value.rows[k].catnum) == Some(SatData(g.value.rows[k].name, g.value.rows[k].epoch))
                  && exists j :: 1 <= j < |file.lines| && g.value.rows[k].catnum == ParseCatnum(Strip(file.lines[j]))))
  {
    var g := CatGroup(file, readSat);
    if g.Some? {
      var lines := file.lines;
      StripMargins(lines[0]);
      var rows, idx := FilterMap(lines[1..], CatLine(readSat)), Hits(lines[1..], CatLine(readSat));
      GroupRowsFromLines(lines[1..], readSat);
      forall k | 0 <= k < |rows|
        ensures exists j :: 1 <= j < |lines| && rows[k].catnum == ParseCatnum(Strip(lines[j]))
      {
        assert lines[1..][idx[k]] == lines[idx[k] + 1];
      }
    }
  }

  /**
   * The groups: entry i of the listing gives a group exactly when its name
   * contains ".cat", the file opens and its first line reads; groups keep
   * listing order and are labelled with that stripped first line.
   */
  lemma GroupsFromCatFiles(names: seq<string>, openCat: CatOpener, readSat: SatLookup)
    ensures var gs, idx := Groups(names, openCat, readSat), Hits(names, CatEntry(openCat, readSat));
      && |idx| == |gs|
      && (forall k, l :: 0 <= k < l < |idx| ==> idx[k] < idx[l])
      && (forall i :: 0 <= i < |names| ==>
            (i in idx <==> HasSubstring(names[i], CatPattern) && openCat(names[i]).Readable? && |openCat(names[i]).lines| >= 1))
      && (forall k :: 0 <= k < |idx| ==>
            && HasSubstring(names[idx[k]], CatPattern)
            && Some(gs[k]) == CatGroup(openCat(names[idx[k]]), readSat))
  {
    FilterMapHits(names, CatEntry(openCat, readSat));
  }

  /** Store k (for k >= 1) holds the rows of group k - 1 under its label:
      the combo-box index is the store index. */
  lemma LoadedIndexing(names: seq<string>, openCat: CatOpener, readSat: SatLookup)
    ensures var l, gs := Load(Dir(names), openCat, readSat), Groups(names, openCat, readSat);
      && |l.stores| == 1 + |gs|
      && l.stores[0].rows == AllRows(names, readSat)
      && (forall k :: 1 <= k < |l.stores| ==> l.labels[k] == gs[k - 1].title && l.stores[k].rows == gs[k - 1].rows)
  {
    var gs := Groups(names, openCat, readSat);
    assert Load(Dir(names), openCat, readSat) == Loaded([AllSatellites] + Labels(gs), [NewStore(AllRows(names, readSat))] + GroupStores(gs));
    LabelsStoresIndexing(AllRows(names, readSat), gs);
  }

  /** After the "All satellites" label and store, label k and store k both
      come from group k - 1. */
  lemma LabelsStoresIndexing(rows: seq<Row>, gs: seq<Group>)
    ensures var ls, ss := [AllSatellites] + Labels(gs), [NewStore(rows)] + GroupStores(gs);
      && |ls| == |ss| == 1 + |gs|
      && ss[0].rows == rows
      && (forall k :: 1 <= k < |ss| ==> ls[k] == gs[k - 1].title && ss[k].rows == gs[k - 1].rows)
  {
    var ls, ss := [AllSatellites] + Labels(gs), [NewStore(rows)] + GroupStores(gs);
    forall k | 1 <= k < |ss|
      ensures ls[k] == gs[k - 1].title && ss[k].rows == gs[k - 1].rows
    {
      assert ls[k] == Labels(gs)[k - 1];
      assert ss[k] == GroupStores(gs)[k - 1];
    }
  }
}
