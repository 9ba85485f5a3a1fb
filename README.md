# domains_table: a Dafny model of the Qubes VM table window

`qui/domains_table.py` is the graphical counterpart of `qvm-ls`. It lists the
VMs of a Qubes system in a Gtk tree view. The table has one column per
requested qvm-ls column. Icon columns show the power state, the label and
the network VM's label. A bar of toggle buttons hides VMs by power state
(Running, Transient, Halted) or by class (AppVM, StandaloneVM, TemplateVM,
DispVM).

The model covers what the window computes:

- `Domains`: the VM record and the `ICON_STATE_MAP` icon/state table.
  `state_icon_name` inverts that table. `netvm_label` picks the network icon.
  A column yields one cell per VM.
- `Dicts`: Python dict displays and comprehensions. Items are inserted in
  order and the last one wins. An inverted dict looks back up to the value
  it was inverted from.
- `Text`: ASCII `str.upper`, `str.lower`, `str.strip()`, `str.split(',')`
  and `','.join`, with the strip, split and join laws `main` relies on.
- `Columns`: the qvm-ls column registry as a class with one mutable map from
  upper-case header to column. Also `_tree_view`'s loop that keeps the
  registered columns among the requested names, and the loop that gives each
  kept column its title, renderer and store index.
- `Store`: `DomainsListStore`. One string cell per column, and one row per VM
  in iteration order. dom0 is skipped. An exception from any cell
  propagates, so no store is built.
- `Window`: `ListBoxWindow`. It holds the filter (`state` starts as
  `["Halted"]`, `vm_type` as `[]`), the pressed state of the seven toggle
  buttons and the two toggle callbacks (`list.remove`, which raises
  ValueError, and `list.append`). It also holds `_filter_func`, which reads
  cell 0 and cell 3 of a row and raises IndexError or KeyError on a bad row.
  The invariant kept by every button press: a button is pressed iff its name
  is in neither exclusion list.
- `Cli`: the column choice of `main`. A non-empty `--fields` is split on
  commas and stripped; otherwise the `formats` preset is used, raising
  KeyError for an unknown preset. Each unknown name is registered as a
  property column, then the window is built.

Python exceptions are values of `Domains.Error`, returned in a
`Wrappers.Result`.

Two behaviours of the code that the model keeps as written:

- `reload` only prints a marker string. A change of `qubes.xml` therefore
  does not rebuild the table. The filter lists are fields of the window and
  are never reset.
- `_filter_func` reads the state and the class by position (cells 0 and 3),
  whatever columns were chosen. The model keeps the positions.
  `Cli.PresetTypePosition` shows that cell 3 holds the class only in the
  `simple` and `full` presets. `Window.VisibleIffNotExcluded` states
  visibility under exactly that assumption.

## Model

| member | source | states |
|---|---|---|
| Dicts.FromItems | qui/domains_table.py:18-22 | the keys of a dict display are exactly the keys of its items, at any position |
| Dicts.FromThreeItems | qui/domains_table.py:18-22 | a three-item display is the three updates applied left to right |
| Dicts.Swapped | qui/domains_table.py:26 | `items()` with key and value exchanged, item by item, same length and order |
| Dicts.FromItemsLookup | qui/domains_table.py:18-22 | with distinct keys, the dict maps k to v iff (k, v) is one of its items (both directions) |
| Dicts.InvertRoundTrip | qui/domains_table.py:26 | with distinct keys and values, looking up the inverted dict and then the original gives back the value |
| Domains.IconStateMapIs | qui/domains_table.py:18-22 | ICON_STATE_MAP maps the three icons to Running, Transient and Halted |
| Domains.InvertedIconStateMapIs | qui/domains_table.py:26 | the comprehension in `state_icon_name` maps Running, Transient and Halted back to their icons |
| Domains.StateIconName | qui/domains_table.py:25-26 | succeeds iff the power state is one of the three known states, gives each state's icon, and raises KeyError with the state otherwise |
| Domains.StateIconRoundTrip | qui/domains_table.py:18-26 | for a known power state, ICON_STATE_MAP maps the VM's state icon back to its power state |
| Domains.NetvmLabel | qui/domains_table.py:29-33 | "process-stop" without a network VM, the network VM's label icon otherwise |
| Domains.NetvmLabelDisabledIff | qui/domains_table.py:29-33 | if no network VM's label icon is "process-stop", the cell is "process-stop" iff the VM has no network VM |
| Domains.NetvmLabelAmbiguous | qui/domains_table.py:29-33 | a network VM whose label icon is "process-stop" gives the same cell as no network VM |
| Text.Upper | qui/domains_table.py:121 | same length, each character upper-cased (ASCII) |
| Text.Lower | qui/domains_table.py:194 | same length, each character lower-cased (ASCII) |
| Text.UpperOfLower | qui/domains_table.py:193-194 | upper-casing the lower-cased name gives the key `main` checked |
| Text.LeadingSpaces | qui/domains_table.py:121 | the count of leading characters that are whitespace: all before it are, the one at it is not |
| Text.TrailingStart | qui/domains_table.py:121 | where the trailing whitespace begins: all from it on is whitespace, the character before it is not |
| Text.Strip | qui/domains_table.py:121 | the result neither starts nor ends with whitespace |
| Text.StripShape | qui/domains_table.py:121 | strip returns a slice of its input with only whitespace cut off before and after it |
| Text.StripStripped | qui/domains_table.py:121 | a string without surrounding whitespace is left unchanged |
| Text.StripPadded | qui/domains_table.py:187 | whitespace padding on both sides of a non-empty stripped string strips back to that string |
| Text.StripIdempotent | qui/domains_table.py:187 | stripping twice equals stripping once |
| Text.Split | qui/domains_table.py:187 | at least one piece, none containing the separator |
| Text.JoinSplit | qui/domains_table.py:187 | joining the pieces of a split with the separator gives back the string |
| Text.SplitPlain | qui/domains_table.py:187 | a string without the separator splits into itself alone |
| Text.SplitAfterPiece | qui/domains_table.py:187 | a separator-free piece followed by the separator splits off as the first piece |
| Text.SplitJoin | qui/domains_table.py:187 | splitting the join of at least one separator-free piece gives back the pieces |
| Columns.ColumnRegistry.constructor | qui/domains_table.py:161-163 | the registry starts out as the qvm-ls catalogue, whose columns are each filed under their own header |
| Columns.ColumnRegistry.Register | qui/domains_table.py:161-163 | the column is stored under its header, replacing any column already there; nothing else changes; every column stays filed under its own header |
| Columns.ColumnRegistry.RegisterBuiltins | qui/domains_table.py:161-163 | LABEL, STATE and NETVM_LABEL are (re)defined as the three icon columns; every other entry is kept; every column stays filed under its own header |
| Columns.PropertyColumn | qui/domains_table.py:194 | a column showing property `name`, registered under the upper-cased name |
| Columns.Keys | qui/domains_table.py:120-121 | one key per requested name, the stripped upper-cased name |
| Columns.Kept | qui/domains_table.py:122-123 | no more columns than keys |
| Columns.ResolveOne | qui/domains_table.py:120-123 | a registered name contributes its column, an unknown one contributes nothing |
| Columns.KeptAppend | qui/domains_table.py:120-123 | keeping works key by key, so the columns of a concatenation are the concatenated columns |
| Columns.ResolveAppend | qui/domains_table.py:120-123 | the chosen columns keep the requested order: resolving a + b is resolving a, then b |
| Columns.KeptAllKnown | qui/domains_table.py:120-123 | if every key is registered, one column per key, each the registered one |
| Columns.ResolveAllKnown | qui/domains_table.py:120-123 | if every requested name is registered, no name is dropped and column i is the one registered for name i |
| Columns.TreeViewColumns | qui/domains_table.py:119-123 | the loop's result equals the name-by-name resolution `Resolve` |
| Columns.ViewColumns | qui/domains_table.py:134-146 | one tree-view column per kept column, showing store column i; STATE, LABEL and NETVM_LABEL get title " " and an icon renderer, the others their header and a text renderer |
| Domains.Cell | qui/domains_table.py:161-163 | the LABEL column shows the label icon, STATE `state_icon_name`, NETVM_LABEL `netvm_label`; a property column shows the property iff the VM has it and otherwise fails with NoSuchProperty |
| Store.RowOf | qui/domains_table.py:51 | succeeds iff every cell succeeds; then one cell per column, cell i being column i's cell for the VM |
| Store.RowOfFirstError | qui/domains_table.py:51 | a failing row reports the exception of its first failing cell, all earlier cells having succeeded |
| Store.Listed | qui/domains_table.py:48-50 | never more VMs than the source yields |
| Store.ListedAppend | qui/domains_table.py:48-50 | the skip is VM by VM, so iteration order is kept |
| Store.ListedMembers | qui/domains_table.py:48-50 | a VM is listed iff the source yields it and it is not named dom0 |
| Store.ListedOne | qui/domains_table.py:48-50 | a single VM is listed unless its name is dom0 |
| Store.ListedStep | qui/domains_table.py:48-50 | extending the iterated prefix by one VM lists that VM unless it is dom0 |
| Store.ProjectSpec | qui/domains_table.py:48-51 | the rows of the listed VMs exist iff every VM's row does; then one row per VM, row j being VM j's row |
| Store.ProjectStep | qui/domains_table.py:51 | appending a row for one more VM, or failing with that VM's exception |
| Store.ProjectErrorSticks | qui/domains_table.py:48-51 | once a VM's row has failed, later VMs do not change the failure |
| Store.RowsShape | qui/domains_table.py:43-51 | a built store has one row per non-dom0 VM, one cell per column, cell (j, i) being column i's cell for VM j |
| Store.RowsSkipDom0 | qui/domains_table.py:49-50 | inserting dom0 anywhere in the source leaves the rows unchanged |
| Store.ListedAround | qui/domains_table.py:48-50 | around a VM that is not dom0, the listed VMs are those listed before it, then it, then those listed after it |
| Store.RowsFailAt | qui/domains_table.py:48-51 | if the first failing VM is at position i, the store build fails with its exception |
| Store.DomainsListStore.Empty | qui/domains_table.py:43-47 | the store has the given number of string columns and no rows |
| Store.DomainsListStore.Append | qui/domains_table.py:51 | the row is added at the end; every row has one cell per store column |
| Store.NewDomainsListStore | qui/domains_table.py:41-51 | builds a store iff every non-dom0 VM's row can be built; its rows are then exactly `Rows` and it has one column per column; otherwise the exception of the first failing VM |
| Window.ButtonsDataShape | qui/domains_table.py:74-83 | the state buttons carry exactly the three state names, the type buttons the four class names, no name twice |
| Window.IndexOf | qui/domains_table.py:102 | the position of the first occurrence of the name |
| Window.Remove | qui/domains_table.py:102 | `list.remove` succeeds iff the name is present and raises ValueError otherwise; it deletes the first occurrence and keeps the other elements in order (length one less, multiset minus the name) |
| Window.RemoveAppended | qui/domains_table.py:100-104 | removing a name just appended to a list without it gives the list back |
| Window.RemoveMembers | qui/domains_table.py:102 | removal keeps every other name's membership; without duplicates the name is gone and there are still no duplicates |
| Window.ListToggle | qui/domains_table.py:100-113 | one toggle keeps the list duplicate-free and changes the membership of the toggled name only |
| Window.IsVisible | qui/domains_table.py:149-155 | succeeds iff the row has more than three cells and a known state icon; then the row is shown iff its state is not excluded and cell 3 is not an excluded class; IndexError for a short row, KeyError for an unknown icon |
| Window.ButtonIndex | qui/domains_table.py:74-83 | each state or class name has a button carrying it |
| Window.Shown | qui/domains_table.py:130-155 | succeeds iff every row is well formed for `_filter_func`, otherwise fails with some row's exception; every shown row is a store row that is visible, and every visible store row is shown |
| Window.ShownAppend | qui/domains_table.py:130-131 | the filtered view keeps store order: filtering a + b shows a's rows, then b's |
| Window.ListBoxWindow.FilterFunc | qui/domains_table.py:149-155 | the window's `_filter_func` succeeds iff the row is well formed, then shows it iff its state is not in `state` and cell 3 is not in `vm_type` |
| Window.ListBoxWindow.PressedIff | qui/domains_table.py:91-113 | under the invariant, the button of a state or class name is pressed iff that name is in neither list |
| Window.ListBoxWindow.FilterFuncButtons | qui/domains_table.py:91-155 | under the invariant, a well-formed row is shown iff its state's button is pressed and, when cell 3 is a class with a button, that button is pressed |
| Window.NothingExcludedShowsAll | qui/domains_table.py:149-155 | with both lists empty every well-formed row is shown |
| Window.VisibleIffNotExcluded | qui/domains_table.py:149-155 | with STATE as cell 0 and the class as cell 3, a VM's row is shown iff its power state and its class are not excluded |
| Window.ShownAllWhenNothingExcluded | qui/domains_table.py:149-155 | with both lists empty the filtered view shows every row of the store, in order |
| Window.ScenarioListed | qui/domains_table.py:48-50 | two VMs and dom0: the two VMs are listed, in order |
| Window.ScenarioProject | qui/domains_table.py:51 | two VMs whose rows can be built give those two rows, in order |
| Window.DefaultFilterScenario | qui/domains_table.py:48-59 | with the initial filter, a halted VM, a running VM and dom0 show exactly the running VM's row |
| Window.ListBoxWindow.constructor | qui/domains_table.py:59-92 | the filter starts as state ["Halted"] and vm_type []; every button except Halted starts pressed; the invariant holds |
| Window.ListBoxWindow.ToggleFilterState | qui/domains_table.py:100-104 | pressed: the state is removed, or ValueError with the list unchanged; released: the state is appended |
| Window.ListBoxWindow.ToggleFilterType | qui/domains_table.py:109-113 | the same for the VM class list |
| Window.ListBoxWindow.ButtonToggled | qui/domains_table.py:85-116 | a press flips only that button, edits only that button's list and never fails; the invariant is kept and the store is untouched |
| Window.ToggleTwice | qui/domains_table.py:100-116 | toggling twice restores the buttons; from pressed the lists come back exactly, from released as the same sets |
| Window.NewListBoxWindow | qui/domains_table.py:55-66 | a window exists iff the store for the resolved columns can be built, and otherwise fails with the store's exception; it then has the filter state ["Halted"] and vm_type [], its columns are exactly the resolved columns in order, its tree-view column i shows store column i with title " " and an icon renderer for STATE/LABEL/NETVM_LABEL and the header and a text renderer otherwise, and its store rows are exactly those of the non-dom0 VMs |
| Cli.PresetIn | qui/domains_table.py:189 | looking a preset up in a formats table succeeds iff the name is a key, giving its names, and raises KeyError with the name otherwise |
| Cli.Preset | qui/domains_table.py:166-175 | succeeds iff the preset is simple, network, full or disk, with KeyError otherwise; every preset has more than three names and starts with state, label, name |
| Cli.PresetTypePosition | qui/domains_table.py:149-175 | cell 3 is the class column exactly in the simple and full presets |
| Cli.PresetNamesStripped | qui/domains_table.py:166-175 | preset names have no surrounding whitespace |
| Cli.FieldNames | qui/domains_table.py:187 | one name per comma-separated piece, that piece stripped |
| Cli.ChooseColumnNames | qui/domains_table.py:186-189 | fails only without a non-empty `--fields` and with a format missing from the table, raising KeyError; a non-empty `--fields` gives one name per comma-separated piece, name i being piece i stripped; otherwise the preset's names |
| Cli.SplitSpaced | qui/domains_table.py:187 | " name , class" splits into " name " and " class" |
| Cli.StripSpacedPieces | qui/domains_table.py:187 | " name " strips to "name" and " class" to "class" |
| Cli.FieldsWithSpaces | qui/domains_table.py:186-187 | `--fields " name , class"` chooses exactly name and class, for any preset and formats table |
| Cli.ChosenNamesStripped | qui/domains_table.py:186-189 | every chosen name has no surrounding whitespace, so `main` and `_tree_view` look up the same key |
| Cli.FieldsRoundTrip | qui/domains_table.py:186-187 | for any formats table, passing stripped, comma-free names joined by commas as `--fields` chooses exactly those names, unless the only name is empty |
| Cli.JoinNonEmpty | qui/domains_table.py:186 | joined names are empty only for the single empty name |
| Cli.FieldNamesOfJoin | qui/domains_table.py:187 | split-and-strip of stripped, comma-free names joined by commas gives the names back |
| Cli.WithPropertyColumnsCovers | qui/domains_table.py:192-194 | afterwards every chosen name's upper-case key is registered |
| Cli.WithPropertyColumnsKeeps | qui/domains_table.py:192-194 | entries registered before are untouched |
| Cli.WithPropertyColumnsAdds | qui/domains_table.py:192-194 | each new entry sits under a chosen name's upper-case key and is the property column of that name in lower case |
| Cli.RegisterUnknownColumns | qui/domains_table.py:192-194 | the registry becomes the one `WithPropertyColumns` describes, and every column stays filed under its own header |
| Cli.EveryChosenColumnKept | qui/domains_table.py:120-123 | after registration `_tree_view` drops none of the chosen names |
| Cli.Start | qui/domains_table.py:186-196 | an unknown preset raises KeyError and registers nothing; otherwise the unknown names are registered, and a window exists iff the store can be built; its columns are then the chosen names resolved in order, one per name, drawn as `_tree_view` draws them, over the rows of the non-dom0 VMs, with Halted VMs hidden |

## Left out

- GTK and Gio plumbing is not modelled. This covers widgets, accelerators, icons (`create_icon`), `set_search_column`, `show_all`, `refilter`, the file monitor on `qubes.xml` and `Gtk.main`. It is I/O; the filter state the callbacks change and the visibility function are modelled.
- `reload` only prints a string. Printing is I/O, so nothing is modelled for it.
- Argument parsing (`qvm_ls.get_parser`, its QubesException path) and the qubesadmin connection are outside the model. `--fields` and `--format` are parameters of `Cli.Start`. `app.domains` is a sequence given in iteration order.
- The qvm-ls module is not part of this model. Its standard columns are opaque extractors (`Catalogue`). A property column shows the VM's property and fails with `NoSuchProperty` when the VM lacks it. `PropertyColumn(name)` is taken to register under `name.upper()`.
- Columns.PropertyColumn: the exact header and cell formatting qvm-ls uses for property columns is assumed, not taken from qvm-ls.
- Text.Upper, Text.Lower, Text.Strip: Python's Unicode case mapping and whitespace are restricted to ASCII.
- Exceptions raised inside Gtk callbacks (`_toggle_filter_*`, `_filter_func`) are returned as values. What PyGObject then does with them is outside the model.
- Cli.EveryChosenColumnKept: holds only under the assumption that qvm-ls registers `PropertyColumn(name)` under `name.upper()`. If qvm-ls files it under another key, `_tree_view` drops that name silently.
- Cli.Start: its one-column-per-name clause rests on the same qvm-ls header assumption.
- Window.ToggleTwice: from a released button the list is restored as a set, not as a sequence, because the name moves to the end of its list.
