# gpredict satellite selector: a verified model

This project models the core of gpredict's satellite selector widget
(`GtkSatSelector`). That core has several parts:

- **The catalogue loader.** It builds the "All satellites" list store from
  the `.sat` entries of the satellite-data directory. It then builds one
  list store per readable `.cat` category file, labelled with the file's
  first line.
- **The group combo box.** It holds one label per store.
- **The tree view.** It shows the store of the active combo entry, sorted by
  name. Store 0 uses `compare_func`, a case-insensitive ASCII comparison.
- **The queries on the highlighted row.** Activating a row emits its
  catalogue number. `gtk_sat_selector_get_selected` copies the row's name,
  number and epoch through optional destinations.
- **The column flags.** Flags 0 mean the default flags. Each flag bit makes a
  column visible.

The modules follow the program's layers:

- `wrappers.dfy`: `Option`, for NULL pointers and lookups that may fail.
- `filter_maps.dfy`: `FilterMap`, which is the shape of every loader loop
  (try each element in order, append the successes). It also holds `Hits`,
  an independent description of the same thing: the positions that succeed
  and the values found there.
- `glib_text.dfy`: the GLib string routines the loader and the comparator
  call.
  - `g_strstrip`, `g_strchug` and `g_strchomp`.
  - The `g_strrstr (s, sub) != NULL` test.
  - `g_strsplit (s, ".", 0)[0]`.
  - `g_ascii_strcasecmp`.
- `glib_number.dfy`: `(gint) g_ascii_strtoll (s, NULL, 0)`.
  - Base 0: hexadecimal after "0x", octal after a leading "0", decimal otherwise.
  - It skips leading white space and takes an optional sign.
  - It reads the longest run of digits and saturates at the 64-bit limits.
  - The cast to `gint` keeps the value modulo 2^32.
- `catalogue.dfy`: the records, the list stores and the loader's inputs.
  - The directory listing, the category files and the satellite-data lookup
    are all inputs.
  - `Load` specifies what one loading pass produces.
  - Lemmas characterise the result of a pass.
- `sat_selector.dfy`: the column flags and the class `Selector`, whose
  fields the widget updates in place.
  - `models` holds the list stores.
  - `groups` holds the combo labels.
  - `active` is the active combo entry.
  - `shown` is the index of the store in the tree view.
  - `highlight` is the highlighted row.
  - The loader's two `while` loops over the directory and the read loop of
    `load_cat_file` are methods with loops. Each is proved against `Load`,
    `CatGroup` and `FilterMap`.

`Selector.Valid()` is the invariant the widget keeps:

- there are as many combo labels as stores, and at least one of each;
- label 0 is "All satellites";
- the shown store is the active combo entry;
- a highlighted row exists in the shown store.

The file system and `gtk_sat_data_read_sat` are parameters:

- `DataDir` stands for opening and listing the data directory: either it does
  not open, or it gives the entry names in enumeration order.
- `CatOpener` maps a file name to `CatFile`: either the file does not open,
  or it gives the lines read with status NORMAL before the first read that
  fails.
- `SatLookup` maps a catalogue number to the satellite's nickname and
  epoch, or to nothing.

In the code the flag values come from `gtk-sat-selector.h`, which is not
part of this model. The model uses name = 1, catalogue number = 2 and
epoch = 4. The model takes the default to be all three flags (the header that
defines it is not modelled).

## Model

| member | source | states |
|---|---|---|
| SatSelector.EffectiveFlags | src/gtk-sat-selector.c:185-191 | the flags in force are never 0; non-zero flags are kept as given, and 0 becomes the default flags (name, catalogue number and epoch) |
| SatSelector.ColumnVisible | src/gtk-sat-selector.c:232-251 | flags 0 show every column; otherwise a column is visible exactly when its flag bit is set |
| SatSelector.HighlightedRow | src/gtk-sat-selector.c:609-611 | there is a selected row exactly when a row is highlighted, and it is a row of the shown store |
| SatSelector.Selector.constructor | src/gtk-sat-selector.c:175-218 | the invariant holds; the flags are defaulted; labels and stores are exactly one loading pass; store 0 has compare_func and name-ascending order while the other stores are as loaded; entry 0 is active and shown; nothing is highlighted |
| SatSelector.Selector.ShowAllSatellites | src/gtk-sat-selector.c:206-218 | the view shows store 0, which gets compare_func as name sort function and name-ascending order; no other store changes; nothing is highlighted |
| SatSelector.Selector.CreateAndFillModels | src/gtk-sat-selector.c:326-414 | the stores and labels grow by exactly what Load gives for the directory, including the single empty "All satellites" store when the directory does not open; entry 0 is active; the count is the number of rows in the "All satellites" store |
| SatSelector.Selector.ReadSatFiles | src/gtk-sat-selector.c:369-396 | the first pass appends to the last store exactly the rows FilterMap gives over the listing, in listing order; the earlier stores do not change; the count is the number of rows appended |
| SatSelector.Selector.ReadSatFile | src/gtk-sat-selector.c:371-395 | one entry extends the last store by exactly its contribution (a row when its name contains ".sat" and its number reads, nothing otherwise); the returned flag says whether a row was added |
| SatSelector.Selector.ReadCatFiles | src/gtk-sat-selector.c:402-409 | the second pass appends one store and one label per group FilterMap gives over the listing, in listing order, after everything that was there |
| SatSelector.Selector.ReadCatFile | src/gtk-sat-selector.c:403-408 | one entry adds its group's label and store when its name contains ".cat" and the file gives a group, and nothing otherwise |
| SatSelector.Selector.LoadCatFile | src/gtk-sat-selector.c:425-514 | when the file does not open or its first line does not read, nothing changes and the count is 0; otherwise exactly one label (the stripped first line) and one store holding the group's rows are appended, and the count is the number of those rows |
| SatSelector.Selector.AppendCatRows | src/gtk-sat-selector.c:470-499 | the read loop of a category file appends to the last store exactly the rows FilterMap gives over its later lines, in line order; the earlier stores do not change; the count is the number of rows appended |
| SatSelector.Selector.AppendCatRow | src/gtk-sat-selector.c:472-498 | one line extends the last store by a row exactly when the lookup succeeds for its stripped and parsed number; the returned flag says whether a row was added |
| SatSelector.Selector.GroupSelected | src/gtk-sat-selector.c:560-587 | the active entry and the shown store become sel; the highlight survives only when the store was already shown; only store sel changes, and only its sort column (now name ascending); no store's rows or sort function change; the invariant is kept |
| SatSelector.Selector.Highlight | src/gtk-sat-selector.c:609-611 | the tree view's selection, which the toolkit keeps: the highlight becomes the given row of the shown store, and the invariant is kept |
| SatSelector.Selector.RowActivated | src/gtk-sat-selector.c:600-623 | a signal is emitted exactly when a row is highlighted, and it carries that row's catalogue number |
| SatSelector.Selector.GetSelected | src/gtk-sat-selector.c:635-672 | with no name destination, or nothing highlighted, every destination keeps its contents; otherwise the name is written, and the number and epoch are written exactly to the destinations that exist |
| SatSelector.Selector.Destroy | src/gtk-sat-selector.c:147-166 | removing the head store once per store leaves no store |
| Catalogue.CompareRows | src/gtk-sat-selector.c:529-547 | compare_func is zero exactly when the two names are equal ignoring ASCII case |
| Catalogue.CatGroupContents | src/gtk-sat-selector.c:442-508 | a category file gives a group exactly when it opens and its first line reads; the label is that first line without its white-space margins and has no white space at either end; there are at most as many rows as later lines, and each row carries the stripped and parsed number of some later line together with the nickname and epoch the lookup gives for that number |
| Catalogue.Labels | src/gtk-sat-selector.c:454 | one label per group, in group order, each the group's title |
| Catalogue.GroupStores | src/gtk-sat-selector.c:457-463 | one new store per group, in group order, each holding the group's rows |
| Catalogue.GroupsSnoc | src/gtk-sat-selector.c:452-463 | a new group appends its label and its store together at the end |
| Catalogue.Load | src/gtk-sat-selector.c:344-409 | label count equals store count, and both are at least 1; label 0 is "All satellites"; every store is as gtk_list_store_new leaves it; a directory that does not open gives exactly one empty "All satellites" store and its label |
| Catalogue.LoadOfDir | src/gtk-sat-selector.c:344-409 | the "All satellites" store comes first and holds the first pass's rows; after it come the groups' stores and labels, in group order |
| Catalogue.LoadedIndexing | src/gtk-sat-selector.c:344-351 | store 0 holds the "All satellites" rows; for k >= 1, store k and combo label k both belong to group k - 1, so the combo index is the store index |
| Catalogue.AllRowsFromSatFiles | src/gtk-sat-selector.c:369-396 | entry i gives a row exactly when its name contains ".sat" anywhere and the lookup succeeds for the number before its first dot; rows keep listing order and carry that number and the looked-up data |
| Catalogue.GroupRowsFromLines | src/gtk-sat-selector.c:470-499 | later line j gives a row exactly when the lookup succeeds for its stripped and parsed number; such a row is omitted otherwise; rows keep line order and carry that number |
| Catalogue.GroupsFromCatFiles | src/gtk-sat-selector.c:402-409 | entry i gives a group exactly when its name contains ".cat", the file opens and its first line reads; groups keep listing order |
| Catalogue.FileCatnumOfDecimal | src/gtk-sat-selector.c:373-374 | a file named after a decimal catalogue number and a dot ("25544.sat") stands for that number |
| FilterMaps.FilterMapHits | src/gtk-sat-selector.c:369-396 | the k-th value appended is what the k-th successful position gives; those positions increase; a position is one of them exactly when it succeeds |
| FilterMaps.FilterMapSnoc | src/gtk-sat-selector.c:470-499 | one more element read appends exactly its contribution |
| FilterMaps.FilterMapPrefixStep | src/gtk-sat-selector.c:369-396 | one loop step over a prefix appends exactly the next element's contribution |
| GlibText.StripLeadingShape | src/gtk-sat-selector.c:453 | g_strchug keeps a suffix that does not start with white space, and what it drops is white space |
| GlibText.StripTrailingShape | src/gtk-sat-selector.c:473 | g_strchomp keeps a prefix that does not end with white space, and what it drops is white space |
| GlibText.StripMargins | src/gtk-sat-selector.c:453 | the stripped text lies in the line between two margins of white space, and neither of its ends is white space |
| GlibText.StripPadded | src/gtk-sat-selector.c:473 | stripping gives back exactly the text between white-space margins, for example a line's trailing newline is removed |
| GlibText.StripIdempotent | src/gtk-sat-selector.c:453 | stripping twice is stripping once |
| GlibText.HasSubstringIff | src/gtk-sat-selector.c:371 | the ".sat" and ".cat" tests hold exactly when the pattern occurs at some position, not only as a suffix |
| GlibText.BeforeFirstDotShape | src/gtk-sat-selector.c:373 | the first field of the split is the longest prefix without a dot; a dot follows it unless it is the whole name |
| GlibText.BeforeFirstDotOf | src/gtk-sat-selector.c:373 | the first field of "25544.sat" or "25544.sat.bak" is "25544" |
| GlibText.CaseCmpAntisymmetric | src/gtk-sat-selector.c:541 | swapping the names negates the comparison |
| GlibText.CaseCmpZeroIff | src/gtk-sat-selector.c:541 | the comparison is zero exactly when the C strings are equal after ASCII lower-casing |
| GlibText.CaseCmpTransitive | src/gtk-sat-selector.c:541 | "not after" is transitive, so the name order compare_func gives is a total preorder |
| GlibText.CaseCmpExamples | src/gtk-sat-selector.c:541 | "alpha" and "Alpha" tie; "Alpha" sorts before "beta" and "beta" after "Alpha" |
| GlibText.CString | src/gtk-sat-selector.c:541 | the C string a name denotes has no NUL in it |
| GlibNumber.SkipParseSpaceShape | src/gtk-sat-selector.c:476 | the parse skips exactly the leading white space, vertical tab included |
| GlibNumber.DigitRunLongest | src/gtk-sat-selector.c:476 | the digits read are the longest run of digits of the base |
| GlibNumber.Base | src/gtk-sat-selector.c:476 | base 0 selects base 8, 10 or 16 |
| GlibNumber.StrToInt64 | src/gtk-sat-selector.c:476 | g_ascii_strtoll's result lies in the 64-bit range |
| GlibNumber.ToGint | src/gtk-sat-selector.c:374 | the cast to gint gives a value in the 32-bit range and keeps a value already in range |
| GlibNumber.ToGintCongruent | src/gtk-sat-selector.c:374 | the cast keeps the value modulo 2^32 |
| GlibNumber.ParseCatnum | src/gtk-sat-selector.c:374 | a parsed catalogue number is a gint |
| GlibNumber.Decimal | src/gtk-sat-selector.c:374 | the decimal rendering of a number is digits only, has no leading zero, and denotes the number |
| GlibNumber.ParseDecimal | src/gtk-sat-selector.c:374 | a catalogue number written in decimal reads back as itself |
| GlibNumber.OctalPrefix | src/gtk-sat-selector.c:476 | a leading zero selects octal: "010" reads as 8 |
| GlibNumber.OctalStopsAtEight | src/gtk-sat-selector.c:476 | an octal number stops at '8': "08" reads as 0 |
| GlibNumber.SignedHex | src/gtk-sat-selector.c:476 | white space and a sign may come before "0x": " -0x1A" reads as -26 |

## Left out

- Type registration, class initialisation, signal creation and chaining to the parent class's destroy. These belong to the GObject framework.
- Widget construction and layout: columns, renderers, the scrolled window, the table, the search entry and the tooltips. Column visibility is modelled as one boolean per flag bit (`ColumnVisible`). Translation of the labels through gettext is not modelled: "All satellites" is the untranslated text.
- Reference counting around model swaps. It has no observable effect in this model.
- Real directory and file I/O and `get_satdata_dir`. They are replaced by the `DataDir` and `CatOpener` inputs. The directory is assumed to list the same entries in the same order on both passes, that is, after `g_dir_rewind`.
- How a category file's read stops. The lines are those read with status NORMAL; EOF, a read error and an encoding error end the read alike.
- The internals of `gtk_sat_data_read_sat`. It is the `SatLookup` input, which gives the nickname and epoch or nothing.
- Logging through `sat_log_log`. The counts it logs are returned by the loader methods instead.
- The incremental text search, which the toolkit provides.
- The sort algorithm and the order in which the tree view displays rows. A store records only its name sort function and sort column. `CaseCmpTransitive` and `CaseCmpAntisymmetric` show that `compare_func` orders names consistently. The group stores' default string comparison (`g_utf8_collate`) is represented by a tag and never computed.
- The epoch as a double. It is carried as an opaque value and never computed with.
- Strings are sequences of code points, not UTF-8 bytes. The byte encoding of names is not modelled. A NUL inside a name is modelled only for `g_ascii_strcasecmp` (`CString`).
- The shutdown of the category file's channel at line 513 also runs when the open failed and the channel is NULL. GLib only warns there, so it is not modelled.
- StrToInt64: the contract states the 64-bit range, not the saturated value. The body computes the saturation exactly on the unbounded magnitude. Inputs whose digits overflow `guint64` are therefore treated correctly (clamped), as GLib's overflow flag does.
- GroupSelected: requires the active entry to be a store index (`0 <= sel < |models|`). `gtk_combo_box_get_active` can give -1, but only when no entry is active, and the widget never sets that.
- The loop bodies of the two directory passes and of the category read loop are separate methods (`ReadSatFile`, `ReadCatFile`, `AppendCatRow`). Their ghost `entry`/`line` parameters stand for the per-entry contribution `SatEntry`, `CatEntry` or `CatLine`, and a precondition ties each one to that function.
