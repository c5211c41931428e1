/**
 * The satellite selector widget's state: the list stores built by the
 * loader, the group combo box's labels and active entry, the store the tree
 * view shows, and the row it highlights. The widget toolkit itself (layout,
 * rendering, signal dispatch, the sort algorithm) is outside the model; the
 * file system and the satellite-data store are inputs.
 */
module SatSelector {
  import opened Wrappers
  import opened GlibText
  import opened GlibNumber
  import opened FilterMaps
  import opened Catalogue

  // ---------------------------------------------------------------------------
  // Column flags
  // ---------------------------------------------------------------------------

  const FlagName: bv32 := 1
  const FlagCatnum: bv32 := 2
  const FlagEpoch: bv32 := 4
  const DefaultFlags: bv32 := FlagName | FlagCatnum | FlagEpoch

  datatype Column = NameColumn | CatnumColumn | EpochColumn

  function ColumnFlag(c: Column): bv32 {
    match c
    case NameColumn => FlagName
    case CatnumColumn => FlagCatnum
    case EpochColumn => FlagEpoch
  }

  /** Flags 0 stand for the default flags. */
  function EffectiveFlags(flags: bv32): (f: bv32)
    ensures f != 0
    ensures flags != 0 ==> f == flags
    ensures flags == 0 ==> f == DefaultFlags
  {
    if flags == 0 then DefaultFlags else flags
  }

  /** A column is shown when its flag is set; flags 0 show every column. */
  function ColumnVisible(flags: bv32, c: Column): (visible: bool)
    ensures flags == 0 ==> visible
    ensures flags != 0 ==> (visible <==> flags & ColumnFlag(c) != 0)
  {
    EffectiveFlags(flags) & ColumnFlag(c) != 0
  }

  /** The highlighted row of a store, if any. */
  function HighlightedRow(store: Store, highlight: Option<nat>): (r: Option<Row>)
    requires highlight.Some? ==> highlight.value < |store.rows|
    ensures r.Some? <==> highlight.Some?
    ensures r.Some? ==> r.value in store.rows
  {
    match highlight
    case None => None
    case Some(k) => Some(store.rows[k])
  }

  // ---------------------------------------------------------------------------
  // The selector
  // ---------------------------------------------------------------------------

  class Selector {
    /** The column flags in force (never 0). */
    var flags: bv32
    /** The list stores, "All satellites" first. */
    var models: seq<Store>
    /** The group combo box's entries. */
    var groups: seq<string>
    /** The group combo box's active entry (-1 for none). */
    var active: int
    /** The index of the store the tree view shows. */
    var shown: int
    /** The row of the shown store the tree view highlights, if any. */
    var highlight: Option<nat>

    /** Entry k of the combo box names store k; "All satellites" is entry 0;
        the shown store is the active entry; a highlighted row exists. */
    ghost predicate Valid()
      reads this
    {
      && |models| == |groups| >= 1
      && groups[0] == AllSatellites
      && 0 <= shown < |models|
      && active == shown
      && (highlight.Some? ==> highlight.value < |models[shown].rows|)
    }

    /** gtk_sat_selector_new: default the flags, load the catalogue, show
        store 0 sorted by name with compare_func, nothing highlighted. */
    constructor (flags: bv32, dir: DataDir, openCat: CatOpener, readSat: SatLookup)
      ensures Valid()
      ensures this.flags == EffectiveFlags(flags)
      ensures var l := Load(dir, openCat, readSat);
        && groups == l.labels
        && models == [l.stores[0].(nameSort := CompareFunc, sortColumn := NameAscending)] + l.stores[1..]
      ensures active == 0 && shown == 0 && highlight == None
    {
      this.flags := EffectiveFlags(flags);
      models := [];
      groups := [];
      active := -1;
      shown := 0;
      highlight := None;
      new;
      var _ := CreateAndFillModels(dir, openCat, readSat);
      ghost var l := Load(dir, openCat, readSat);
      assert [] + l.stores == l.stores && [] + l.labels == l.labels;
      assert |l.stores| == |l.labels| >= 1 && l.labels[0] == AllSatellites;
      ShowAllSatellites();
    }

    /** Show store 0 ("All satellites") sorted by name with compare_func,
        with nothing highlighted. */
    method ShowAllSatellites()
      requires |models| >= 1
      modifies this`models, this`shown, this`highlight
      ensures models == [old(models)[0].(nameSort := CompareFunc, sortColumn := NameAscending)] + old(models)[1..]
      ensures shown == 0 && highlight == None
    {
      shown := 0;
      highlight := None;
      var sorted := models[0].(nameSort := CompareFunc, sortColumn := NameAscending);
      UpdateFirst(models, sorted);
      models := models[0 := sorted];
    }

    /**
     * create_and_fill_models: append the "All satellites" store and label
     * and make that entry active; if the directory opens, fill that store
     * from the ".sat" entries, then load a group from every ".cat" entry.
     * Returns the number of satellites read into the "All satellites" store.
     */
    method CreateAndFillModels(dir: DataDir, openCat: CatOpener, readSat: SatLookup) returns (num: nat)
      modifies this`models, this`groups, this`active
      ensures models == old(models) + Load(dir, openCat, readSat).stores
      ensures groups == old(groups) + Load(dir, openCat, readSat).labels
      ensures active == 0
      ensures num == |Load(dir, openCat, readSat).stores[0].rows|
    {
      models := models + [NewStore([])];
      groups := groups + [AllSatellites];
      active := 0;
      num := 0;
      if dir.DirUnopenable? {
        return;
      }
      var names := dir.entries;
      num := ReadSatFiles(names, readSat, SatEntry(readSat));
      assert [] + FilterMap(names, SatEntry(readSat)) == FilterMap(names, SatEntry(readSat));
      SnocLast(models, old(models));
      ReadCatFiles(names, openCat, readSat, CatEntry(openCat, readSat));
      LoadOfDir(names, openCat, readSat, old(models), old(groups));
    }

    /**
     * The first pass over the directory: for every entry whose name contains
     * ".sat", the text before its first dot is parsed as a catalogue number;
     * when the satellite data reads, a row is appended to the last store.
     * Returns the number of rows appended. The ghost `entry` stands for
     * SatEntry(readSat); it is passed as a parameter only so that the
     * verifier does not unfold the catalogue-number parse at every step.
     */
    method ReadSatFiles(names: seq<string>, readSat: SatLookup, ghost entry: string -> Option<Row>) returns (num: nat)
      requires |models| >= 1
      requires forall x {:trigger SatEntryRow(readSat, x)} :: entry(x) == SatEntryRow(readSat, x)
      modifies this`models
      ensures |models| == |old(models)| && models[..|models| - 1] == old(models)[..|models| - 1]
      ensures models[|models| - 1] == old(models)[|models| - 1].(rows := old(models)[|models| - 1].rows + FilterMap(names, entry))
      ensures num == |FilterMap(names, entry)|
    {
      num := 0;
      var last := |models| - 1;
      ghost var base := old(models)[last];
      var i := 0;
      while i < |names|
        invariant 0 <= i <= |names|
        invariant |models| == last + 1
        invariant models[..last] == old(models)[..last]
        invariant models[last] == base.(rows := base.rows + FilterMap(names[..i], entry))
        invariant num == |FilterMap(names[..i], entry)|
      {
        var added := ReadSatFile(names, i, readSat, base.rows, entry);
        if added {
          num := num + 1;
        }
        i := i + 1;
      }
      assert names[..|names|] == names;
    }

    /** One entry of the first pass: a name containing ".sat" whose number
        reads adds its row to the last store; any other entry adds nothing. */
    method ReadSatFile(names: seq<string>, i: nat, readSat: SatLookup, ghost base: seq<Row>, ghost entry: string -> Option<Row>) returns (added: bool)
      requires i < |names| && |models| >= 1
      requires forall x {:trigger SatEntryRow(readSat, x)} :: entry(x) == SatEntryRow(readSat, x)
      requires models[|models| - 1].rows == base + FilterMap(names[..i], entry)
      modifies this`models
      ensures |models| == |old(models)| && models[..|models| - 1] == old(models)[..|models| - 1]
      ensures models[|models| - 1] == old(models)[|models| - 1].(rows := base + FilterMap(names[..i + 1], entry))
      ensures |FilterMap(names[..i + 1], entry)| == |FilterMap(names[..i], entry)| + (if added then 1 else 0)
    {
      added := false;
      var last := |models| - 1;
      var fname := names[i];
      assert entry(fname) == SatEntryRow(readSat, fname);
      if HasSubstring(fname, SatPattern) {
        var catnum := FileCatnum(fname);
        match readSat(catnum) {
          case Some(sat) =>
            var row := Row(sat.nickname, catnum, sat.epoch);
            FilterMapAppendStep(base, names, i, entry, row);
            models := models[last := models[last].(rows := models[last].rows + [row])];
            added := true;
          case None =>
            FilterMapSkipStep(names, i, entry);
        }
      } else {
        FilterMapSkipStep(names, i, entry);
      }
    }

    /**
     * The second pass over the directory: every entry whose name contains
     * ".cat" is loaded as a category file. The ghost `entry` stands for
     * CatEntry(openCat, readSat), the contribution of one entry.
     */
    method ReadCatFiles(names: seq<string>, openCat: CatOpener, readSat: SatLookup, ghost entry: string -> Option<Group>)
      requires forall x {:trigger CatEntryGroup(openCat, readSat, x)} :: entry(x) == CatEntryGroup(openCat, readSat, x)
      modifies this`models, this`groups
      ensures models == old(models) + GroupStores(FilterMap(names, entry))
      ensures groups == old(groups) + Labels(FilterMap(names, entry))
    {
      var i := 0;
      assert names[..0] == [];
      while i < |names|
        invariant 0 <= i <= |names|
        invariant models == old(models) + GroupStores(FilterMap(names[..i], entry))
        invariant groups == old(groups) + Labels(FilterMap(names[..i], entry))
      {
        ReadCatFile(names, i, openCat, readSat, entry, old(models), old(groups));
        i := i + 1;
      }
      assert names[..|names|] == names;
    }

    /** One entry of the second pass: a name containing ".cat" is loaded as
        a category file; any other entry adds nothing. */
    method ReadCatFile(names: seq<string>, i: nat, openCat: CatOpener, readSat: SatLookup,
                       ghost entry: string -> Option<Group>, ghost stores: seq<Store>, ghost labels: seq<string>)
      requires i < |names|
      requires forall x {:trigger CatEntryGroup(openCat, readSat, x)} :: entry(x) == CatEntryGroup(openCat, readSat, x)
      requires models == stores + GroupStores(FilterMap(names[..i], entry))
      requires groups == labels + Labels(FilterMap(names[..i], entry))
      modifies this`models, this`groups
      ensures models == stores + GroupStores(FilterMap(names[..i + 1], entry))
      ensures groups == labels + Labels(FilterMap(names[..i + 1], entry))
    {
      FilterMapPrefixStep(names, i, entry);
      ghost var before := FilterMap(names[..i], entry);
      assert entry(names[i]) == CatEntryGroup(openCat, readSat, names[i]);
      if HasSubstring(names[i], CatPattern) {
        var _ := LoadCatFile(names[i], openCat, readSat);
      }
      if entry(names[i]).Some? {
        GroupsSnoc(labels, stores, before, entry(names[i]).value);
      } else {
        assert before + [] == before;
      }
    }

    /**
     * load_cat_file: nothing happens when the file cannot be opened or its
     * first line cannot be read; otherwise the stripped first line becomes a
     * new combo entry, a new store is appended, and every later line whose
     * number resolves adds a row. Returns the number of rows added.
     */
    method LoadCatFile(fname: string, openCat: CatOpener, readSat: SatLookup) returns (num: nat)
      modifies this`models, this`groups
      ensures CatGroup(openCat(fname), readSat).None? ==> models == old(models) && groups == old(groups) && num == 0
      ensures CatGroup(openCat(fname), readSat).Some? ==>
        var g := CatGroup(openCat(fname), readSat).value;
        models == old(models) + [NewStore(g.rows)] && groups == old(groups) + [g.title] && num == |g.rows|
    {
      num := 0;
      var file := openCat(fname);
      if file.Unopenable? {
        return;
      }
      var lines := file.lines;
      if |lines| == 0 {
        return;
      }
      groups := groups + [Strip(lines[0])];
      models := models + [NewStore([])];
      num := AppendCatRows(lines[1..], readSat, CatLine(readSat));
      ghost var rows := FilterMap(lines[1..], CatLine(readSat));
      assert [] + rows == rows;
      SnocLast(models, old(models));
      assert CatGroup(file, readSat) == Some(Group(Strip(lines[0]), rows));
    }

    /**
     * The read loop of load_cat_file: every line is stripped and parsed as a
     * catalogue number; when the satellite data reads, a row is appended to
     * the last store. Returns the number of rows appended. The ghost `line`
     * stands for CatLine(readSat), the contribution of one line.
     */
    method AppendCatRows(lines: seq<string>, readSat: SatLookup, ghost line: string -> Option<Row>) returns (num: nat)
      requires |models| >= 1
      requires forall x {:trigger CatLineRow(readSat, x)} :: line(x) == CatLineRow(readSat, x)
      modifies this`models
      ensures |models| == |old(models)| && models[..|models| - 1] == old(models)[..|models| - 1]
      ensures models[|models| - 1] == old(models)[|models| - 1].(rows := old(models)[|models| - 1].rows + FilterMap(lines, line))
      ensures num == |FilterMap(lines, line)|
    {
      num := 0;
      var last := |models| - 1;
      ghost var base := old(models)[last];
      var j := 0;
      while j < |lines|
        invariant 0 <= j <= |lines|
        invariant |models| == last + 1
        invariant models[..last] == old(models)[..last]
        invariant models[last] == base.(rows := base.rows + FilterMap(lines[..j], line))
        invariant num == |FilterMap(lines[..j], line)|
      {
        var added := AppendCatRow(lines, j, readSat, base.rows, line);
        if added {
          num := num + 1;
        }
        j := j + 1;
      }
      assert lines[..|lines|] == lines;
    }

    /** One line of a category file: its stripped text is parsed as a
        catalogue number; when the satellite data reads, a row is appended. */
    method AppendCatRow(lines: seq<string>, j: nat, readSat: SatLookup, ghost base: seq<Row>, ghost line: string -> Option<Row>) returns (added: bool)
      requires j < |lines| && |models| >= 1
      requires forall x {:trigger CatLineRow(readSat, x)} :: line(x) == CatLineRow(readSat, x)
      requires models[|models| - 1].rows == base + FilterMap(lines[..j], line)
      modifies this`models
      ensures |models| == |old(models)| && models[..|models| - 1] == old(models)[..|models| - 1]
      ensures models[|models| - 1] == old(models)[|models| - 1].(rows := base + FilterMap(lines[..j + 1], line))
      ensures |FilterMap(lines[..j + 1], line)| == |FilterMap(lines[..j], line)| + (if added then 1 else 0)
    {
      added := false;
      var last := |models| - 1;
      assert line(lines[j]) == CatLineRow(readSat, lines[j]);
      var catnum := ParseCatnum(Strip(lines[j]));
      match readSat(catnum) {
        case Some(sat) =>
          var row := Row(sat.nickname, catnum, sat.epoch);
          FilterMapAppendStep(base, lines, j, line, row);
          models := models[last := models[last].(rows := models[last].rows + [row])];
          added := true;
        case None =>
          FilterMapSkipStep(lines, j, line);
      }
    }

    /**
     * group_selected_cb: the tree view shows the store of the chosen combo
     * entry and that store is set to name-ascending order. Handing the view
     * a different store drops the highlight; handing it the store it already
     * shows leaves it. No store's rows or sort function change.
     */
    method GroupSelected(sel: int)
      requires Valid()
      requires 0 <= sel < |models|
      modifies this`active, this`shown, this`highlight, this`models
      ensures Valid()
      ensures active == sel && shown == sel
      ensures highlight == if sel == old(shown) then old(highlight) else None
      ensures models == old(models)[sel := old(models)[sel].(sortColumn := NameAscending)]
      ensures forall k :: 0 <= k < |models| ==> models[k].rows == old(models)[k].rows && models[k].nameSort == old(models)[k].nameSort
    {
      active := sel;
      if sel != shown {
        shown := sel;
        highlight := None;
      }
      models := models[sel := models[sel].(sortColumn := NameAscending)];
    }

    /** The user highlights a row of the shown store, or clears the highlight;
        this is the tree view's selection, which the toolkit maintains. */
    method Highlight(row: Option<nat>)
      requires Valid()
      requires row.Some? ==> row.value < |models[shown].rows|
      modifies this`highlight
      ensures Valid() && highlight == row
    {
      highlight := row;
    }

    /** row_activated_cb: the "sat-activated" signal carries the highlighted
        row's catalogue number; with nothing highlighted no signal is sent. */
    method RowActivated() returns (signal: Option<int>)
      requires Valid()
      ensures signal.Some? <==> highlight.Some?
      ensures highlight.Some? ==> signal.value == models[shown].rows[highlight.value].catnum
    {
      var row := HighlightedRow(models[shown], highlight);
      match row {
        case None => signal := None;
        case Some(r) => signal := Some(r.catnum);
      }
    }

    /**
     * gtk_sat_selector_get_selected: each destination is None when the
     * caller passes NULL, or Some(current contents). With no name
     * destination, or nothing highlighted, every destination keeps its
     * contents; otherwise the name is written, and the catalogue number and
     * epoch are written to those destinations that exist.
     */
    method GetSelected(catnum: Option<int>, satname: Option<string>, epoch: Option<Epoch>)
      returns (catnumOut: Option<int>, satnameOut: Option<string>, epochOut: Option<Epoch>)
      requires Valid()
      ensures satname.None? || highlight.None? ==>
        catnumOut == catnum && satnameOut == satname && epochOut == epoch
      ensures satname.Some? && highlight.Some? ==>
        var row := models[shown].rows[highlight.value];
        && satnameOut == Some(row.name)
        && catnumOut == (if catnum.Some? then Some(row.catnum) else None)
        && epochOut == (if epoch.Some? then Some(row.epoch) else None)
    {
      catnumOut, satnameOut, epochOut := catnum, satname, epoch;
      if satname.None? {
        return;
      }
      var row := HighlightedRow(models[shown], highlight);
      if row.Some? {
        if catnum.Some? {
          catnumOut := Some(row.value.catnum);
        }
        satnameOut := Some(row.value.name);
        if epoch.Some? {
          epochOut := Some(row.value.epoch);
        }
      }
    }

    /** gtk_sat_selector_destroy: drop the stores one by one from the head
        of the list until it is empty. */
    method Destroy()
      modifies this`models
      ensures models == []
    {
      var n := |models|;
      var i := 0;
      while i < n
        invariant 0 <= i <= n
        invariant models == old(models)[i..]
      {
        models := models[1..];
        i := i + 1;
      }
    }
  }
}
