/**
 * The filter of `ListBoxWindow` (qui/domains_table.py): two exclusion lists,
 * the toggle buttons that edit them and the visibility function of the
 * filtered store.
 */
module Window {
  import opened Wrappers
  import opened Domains
  import opened Store
  import Columns

  /** Which exclusion list a button edits. */
  datatype FilterKind = ByState | ByType

  /** One entry of `buttons_data`: its label and the callback it is wired to (accelerator and icon are GTK plumbing). */
  datatype ButtonData = ButtonData(name: string, kind: FilterKind)

  /** `buttons_data` of `_button_bar`. */
  const ButtonsData: seq<ButtonData> := [
    ButtonData("Running", ByState),
    ButtonData("Transient", ByState),
    ButtonData("Halted", ByState),
    ButtonData("AppVM", ByType),
    ButtonData("StandaloneVM", ByType),
    ButtonData("TemplateVM", ByType),
    ButtonData("DispVM", ByType)
  ]

  const TypeNames: set<string> := {"AppVM", "StandaloneVM", "TemplateVM", "DispVM"}

  /** The state buttons carry exactly the state names, the type buttons the type names, and no name twice. */
  lemma ButtonsDataShape()
    ensures forall i :: 0 <= i < |ButtonsData| ==>
              (ButtonsData[i].kind == ByState <==> ButtonsData[i].name in PowerStates) &&
              (ButtonsData[i].kind == ByType <==> ButtonsData[i].name in TypeNames)
    ensures forall i, j :: 0 <= i < j < |ButtonsData| ==> ButtonsData[i].name != ButtonsData[j].name
    ensures PowerStates !! TypeNames
  {
  }

  /** The position of a state or class name among the buttons. */
  function ButtonIndex(n: string): (i: nat)
    requires n in PowerStates || n in TypeNames
    ensures i < |ButtonsData| && ButtonsData[i].name == n
  {
    if n == "Running" then 0
    else if n == "Transient" then 1
    else if n == "Halted" then 2
    else if n == "AppVM" then 3
    else if n == "StandaloneVM" then 4
    else if n == "TemplateVM" then 5
    else 6
  }

  /** Each element occurs at most once. */
  ghost predicate NoDuplicates(s: seq<string>)
  {
    forall y :: multiset(s)[y] <= 1
  }

  /** The position of the first occurrence of `x`. */
  function IndexOf(s: seq<string>, x: string): (i: nat)
    requires x in s
    ensures i < |s| && s[i] == x && x !in s[..i]
  {
    if s[0] == x then 0
    else
      var i := IndexOf(s[1..], x);
      assert s[..i + 1] == [s[0]] + s[1..][..i];
      i + 1
  }

  /** `list.remove(x)`: drops the first occurrence of `x`, or raises ValueError. */
  function Remove(s: seq<string>, x: string): (r: Result<seq<string>, Error>)
    ensures r.Ok? <==> x in s
    ensures r.Err? ==> r.error == ValueError(x)
    ensures r.Ok? ==> |r.value| == |s| - 1 && multiset(r.value) == multiset(s) - multiset{x}
    ensures r.Ok? ==> exists i :: 0 <= i < |s| && s[i] == x && x !in s[..i] && r.value == s[..i] + s[i + 1..]
  {
    if x in s then
      var i := IndexOf(s, x);
      assert s == s[..i] + [x] + s[i + 1..];
      Ok(s[..i] + s[i + 1..])
    else Err(ValueError(x))
  }

  /** Removing a name that was just appended to a list without it gives the list back. */
  lemma RemoveAppended(s: seq<string>, x: string)
    requires x !in s
    ensures Remove(s + [x], x) == Ok(s)
  {
    var t := s + [x];
    assert x in t;
    var i := IndexOf(t, x);
    assert i == |s| by {
      assert forall j :: 0 <= j < |s| ==> t[j] == s[j];
    }
    assert t[..i] + t[i + 1..] == s;
  }

  /** Removing one name leaves the membership of every other name as it was. */
  lemma RemoveMembers(s: seq<string>, x: string, y: string)
    requires x in s
    ensures y != x ==> (y in Remove(s, x).value <==> y in s)
    ensures NoDuplicates(s) ==> x !in Remove(s, x).value && NoDuplicates(Remove(s, x).value)
  {
    var r := Remove(s, x).value;
    assert y in r <==> multiset(r)[y] > 0;
    assert y in s <==> multiset(s)[y] > 0;
    assert x in r <==> multiset(r)[x] > 0;
    assert x in s ==> multiset(s)[x] > 0;
  }

  /**
   * One toggle of a list without duplicates: pressing removes the name,
   * releasing appends a name that was absent; no other name changes.
   */
  lemma ListToggle(s: seq<string>, n: string, pressed: bool, t: seq<string>, y: string)
    requires NoDuplicates(s)
    requires pressed ==> Remove(s, n) == Ok(t)
    requires !pressed ==> n !in s && t == s + [n]
    ensures NoDuplicates(t)
    ensures y in t <==> (if y == n then !pressed else y in s)
  {
    if pressed {
      RemoveMembers(s, n, y);
    } else {
      assert multiset(t) == multiset(s) + multiset{n};
      assert y in t <==> multiset(t)[y] > 0;
      assert y in s <==> multiset(s)[y] > 0;
      assert multiset(s)[n] == 0;
    }
  }

  /**
   * `_filter_func`: reads the state icon (cell 0) and the type (cell 3) and
   * hides the row if its state or its type is excluded. A row with fewer
   * than four cells raises IndexError, an icon outside `ICON_STATE_MAP`
   * raises KeyError.
   */
  function IsVisible(row: Row, states: seq<string>, types: seq<string>): (r: Result<bool, Error>)
    ensures r.Ok? <==> |row| > 3 && row[0] in IconStateMap
    ensures r.Ok? ==> (r.value <==> IconStateMap[row[0]] !in states && row[3] !in types)
    ensures |row| <= 3 ==> r.Err? && r.error.IndexError?
    ensures |row| > 3 && row[0] !in IconStateMap ==> r == Err(KeyError(row[0]))
  {
    if |row| == 0 then Err(IndexError(0))
    else if |row| <= 3 then Err(IndexError(3))
    else if row[0] !in IconStateMap then Err(KeyError(row[0]))
    else
      var state := IconStateMap[row[0]];
      if state in states || row[3] in types then Ok(false) else Ok(true)
  }

  /** With nothing excluded every well-formed row is shown. */
  lemma NothingExcludedShowsAll(row: Row)
    requires |row| > 3 && row[0] in IconStateMap
    ensures IsVisible(row, [], []) == Ok(true)
  {
  }

  /**
   * For a store whose cell 0 is the STATE column and cell 3 the VM's class
   * (the `simple` and `full` presets), a VM's row is shown iff its power
   * state and its class are both not excluded: the state icon maps back to
   * the power state.
   */
  lemma VisibleIffNotExcluded(vm: Vm, columns: seq<Column>, states: seq<string>, types: seq<string>)
    requires |columns| > 3 && columns[0].kind == StateIcon && Cell(columns[3], vm) == Ok(vm.klass)
    requires RowOf(vm, columns).Ok?
    ensures IsVisible(RowOf(vm, columns).value, states, types)
              == Ok(vm.powerState !in states && vm.klass !in types)
  {
    var row := RowOf(vm, columns).value;
    assert Cell(columns[0], vm) == Ok(row[0]);
    StateIconRoundTrip(vm);
  }

  /** A row `_filter_func` accepts without raising: four cells or more and a known state icon. */
  ghost predicate Filterable(row: Row)
  {
    |row| > 3 && row[0] in IconStateMap
  }

  /**
   * The rows the filtered store shows, in store order. `Err` records that
   * `_filter_func` raises on some row.
   */
  function Shown(rows: seq<Row>, states: seq<string>, types: seq<string>): (r: Result<seq<Row>, Error>)
    ensures r.Ok? <==> forall j :: 0 <= j < |rows| ==> Filterable(rows[j])
    ensures r.Err? ==> exists j :: 0 <= j < |rows| && IsVisible(rows[j], states, types) == Err(r.error)
    ensures r.Ok? ==> |r.value| <= |rows|
    ensures r.Ok? ==> forall k :: 0 <= k < |r.value| ==>
              r.value[k] in rows && IsVisible(r.value[k], states, types) == Ok(true)
    ensures r.Ok? ==> forall j :: 0 <= j < |rows| && IsVisible(rows[j], states, types) == Ok(true) ==>
              rows[j] in r.value
  {
    if rows == [] then Ok([])
    else
      var init, last := rows[..|rows| - 1], rows[|rows| - 1];
      assert forall j :: 0 <= j < |init| ==> init[j] == rows[j];
      match Shown(init, states, types)
      case Err(e) => Err(e)
      case Ok(shown) =>
        match IsVisible(last, states, types)
        case Err(e) => Err(e)
        case Ok(visible) => Ok(if visible then shown + [last] else shown)
  }

  /** Filtering keeps store order: the rows shown of `a + b` are those of `a`, then those of `b`. */
  lemma {:induction false} ShownAppend(a: seq<Row>, b: seq<Row>, states: seq<string>, types: seq<string>)
    requires Shown(a, states, types).Ok? && Shown(b, states, types).Ok?
    ensures Shown(a + b, states, types) == Ok(Shown(a, states, types).value + Shown(b, states, types).value)
  {
    if b == [] {
      assert a + b == a;
      assert Shown(a, states, types).value + [] == Shown(a, states, types).value;
    } else {
      var init, last := b[..|b| - 1], b[|b| - 1];
      assert forall j :: 0 <= j < |init| ==> init[j] == b[j];
      ShownAppend(a, init, states, types);
      assert (a + b)[..|a + b| - 1] == a + init;
      assert (a + b)[|a + b| - 1] == last;
      var sa, si := Shown(a, states, types).value, Shown(init, states, types).value;
      assert sa + si + [last] == sa + (si + [last]);
    }
  }

  /** With both lists empty the filtered store shows every row of the store. */
  lemma {:induction false} ShownAllWhenNothingExcluded(rows: seq<Row>)
    requires forall j :: 0 <= j < |rows| ==> |rows[j]| > 3 && rows[j][0] in IconStateMap
    ensures Shown(rows, [], []) == Ok(rows)
  {
    if rows != [] {
      ShownAllWhenNothingExcluded(rows[..|rows| - 1]);
      assert rows == rows[..|rows| - 1] + [rows[|rows| - 1]];
    }
  }

  /** dom0 is not listed; the two other VMs are, in order. */
  lemma ScenarioListed(vmA: Vm, vmB: Vm, d0: Vm)
    requires vmA.name != Dom0 && vmB.name != Dom0 && d0.name == Dom0
    ensures Listed([vmA, vmB, d0]) == [vmA, vmB]
  {
    ListedAppend([vmA], [vmB]);
    ListedAppend([vmA, vmB], [d0]);
    ListedOne(vmA);
    ListedOne(vmB);
    ListedOne(d0);
    assert [vmA] + [vmB] == [vmA, vmB];
    assert [vmA, vmB] + [d0] == [vmA, vmB, d0];
    assert [vmA, vmB] + [] == [vmA, vmB];
  }
  /** Two VMs whose rows can be built project to those two rows, in order. */
  lemma ScenarioProject(vmA: Vm, vmB: Vm, columns: seq<Column>)
    requires RowOf(vmA, columns).Ok? && RowOf(vmB, columns).Ok?
    ensures Project([vmA, vmB], columns) == Ok([RowOf(vmA, columns).value, RowOf(vmB, columns).value])
  {
    var none: seq<Vm> := [];
    var ra, rb := RowOf(vmA, columns).value, RowOf(vmB, columns).value;
    var noRows: seq<Row> := [];
    assert Project(none, columns) == Ok(noRows);
    assert noRows + [ra] == [ra];
    ProjectStep(none, vmA, columns);
    assert none + [vmA] == [vmA];
    assert Project([vmA], columns) == Ok([ra]);
    ProjectStep([vmA], vmB, columns);
    assert [vmA] + [vmB] == [vmA, vmB];
    assert [ra] + [rb] == [ra, rb];
  }

  /**
   * The default filter on a source of a halted VM, a running VM and dom0:
   * dom0 has no row at all and the halted VM's row is hidden, so only the
   * running VM's row is shown.
   */
  lemma DefaultFilterScenario(vmA: Vm, vmB: Vm, d0: Vm, columns: seq<Column>)
    requires vmA.name != Dom0 && vmB.name != Dom0 && d0.name == Dom0
    requires vmA.powerState == "Halted" && vmB.powerState == "Running"
    requires |columns| > 3 && columns[0].kind == StateIcon
    requires Cell(columns[3], vmA) == Ok(vmA.klass) && Cell(columns[3], vmB) == Ok(vmB.klass)
    requires RowOf(vmA, columns).Ok? && RowOf(vmB, columns).Ok?
    ensures Rows([vmA, vmB, d0], columns).Ok?
    ensures Shown(Rows([vmA, vmB, d0], columns).value, ["Halted"], []) == Ok([RowOf(vmB, columns).value])
  {
    ScenarioListed(vmA, vmB, d0);
    ScenarioProject(vmA, vmB, columns);
    var ra, rb := RowOf(vmA, columns).value, RowOf(vmB, columns).value;
    var noRows: seq<Row> := [];
    VisibleIffNotExcluded(vmA, columns, ["Halted"], []);
    VisibleIffNotExcluded(vmB, columns, ["Halted"], []);
    assert [ra][..0] == noRows;
    assert Shown([ra], ["Halted"], []) == Ok(noRows);
    assert [ra, rb][..1] == [ra];
    assert noRows + [rb] == [rb];
  }

  /** The window's filter, toggle buttons, columns and store. */
  class ListBoxWindow {
    /** `self.filter['state']`: the power states hidden. */
    var state: seq<string>
    /** `self.filter['vm_type']`: the VM classes hidden. */
    var vmType: seq<string>
    /** Whether each toggle button of the button bar is pressed, by button name. */
    var active: map<string, bool>
    const colNames: seq<string>
    const columns: seq<Column>
    const viewColumns: seq<Columns.ViewColumn>
    const store: DomainsListStore

    /**
     * A button is pressed iff its name is in neither list; the lists hold
     * only names of buttons of their kind, each at most once.
     */
    ghost predicate Valid()
      reads this
    {
      && (forall x :: x in state ==> x in PowerStates)
      && (forall x :: x in vmType ==> x in TypeNames)
      && NoDuplicates(state) && NoDuplicates(vmType)
      && (forall i :: 0 <= i < |ButtonsData| ==>
            ButtonsData[i].name in active &&
            (active[ButtonsData[i].name] <==> ButtonsData[i].name !in state && ButtonsData[i].name !in vmType))
    }

    /** `_filter_func` for this window's filter. */
    function FilterFunc(row: Row): (r: Result<bool, Error>)
      reads this
      ensures r.Ok? <==> Filterable(row)
      ensures r.Ok? ==> (r.value <==> IconStateMap[row[0]] !in state && row[3] !in vmType)
    {
      IsVisible(row, state, vmType)
    }

    /** The button of a state or class name is pressed iff the name is in neither list. */
    lemma PressedIff(n: string)
      requires Valid() && (n in PowerStates || n in TypeNames)
      ensures n in active && (active[n] <==> n !in state && n !in vmType)
    {
      var i := ButtonIndex(n);
    }

    /**
     * What the buttons show is what the filter does: a well-formed row is
     * shown iff the button of its state is pressed and, when cell 3 names a
     * class with a button, that button is pressed too.
     */
    lemma FilterFuncButtons(row: Row)
      requires Valid() && Filterable(row)
      ensures IconStateMap[row[0]] in active
      ensures row[3] in TypeNames ==> row[3] in active
      ensures FilterFunc(row) == Ok(active[IconStateMap[row[0]]] && (row[3] in TypeNames ==> active[row[3]]))
    {
      IconStateMapIs();
      PressedIff(IconStateMap[row[0]]);
      if row[3] in TypeNames {
        PressedIff(row[3]);
      }
    }

    /**
     * The filter set up by `__init__` and the buttons of `_button_bar`:
     * Halted VMs are hidden at first, and a button starts pressed iff its
     * name is in neither list.
     */
    constructor (colNames: seq<string>, columns: seq<Column>, viewColumns: seq<Columns.ViewColumn>,
                 store: DomainsListStore)
      ensures Valid()
      ensures state == ["Halted"] && vmType == []
      ensures forall i :: 0 <= i < |ButtonsData| ==> active[ButtonsData[i].name] == (ButtonsData[i].name != "Halted")
      ensures this.colNames == colNames && this.columns == columns
      ensures this.viewColumns == viewColumns && this.store == store
    {
      var initialState, initialType := ["Halted"], [];
      ButtonsDataShape();
      var pressed := map[];
      for i := 0 to |ButtonsData|
        invariant forall j :: 0 <= j < i ==>
                    ButtonsData[j].name in pressed &&
                    pressed[ButtonsData[j].name] == (ButtonsData[j].name !in initialState && ButtonsData[j].name !in initialType)
      {
        var name := ButtonsData[i].name;
        pressed := pressed[name := name !in initialState && name !in initialType];
      }
      assert multiset(initialState) == multiset{"Halted"};
      this.colNames := colNames;
      this.columns := columns;
      this.viewColumns := viewColumns;
      this.store := store;
      state := initialState;
      vmType := initialType;
      active := pressed;
    }

    /** `_toggle_filter_state`: a pressed button removes its state from the list, a released one appends it. */
    method ToggleFilterState(pressed: bool, name: string) returns (err: Option<Error>)
      modifies this`state
      ensures pressed ==> Remove(old(state), name) == (if err.None? then Ok(state) else Err(err.value))
      ensures pressed && err.Some? ==> state == old(state)
      ensures !pressed ==> err.None? && state == old(state) + [name]
    {
      if pressed {
        var removed := Remove(state, name);
        if removed.Err? {
          return Some(removed.error);
        }
        state := removed.value;
      } else {
        state := state + [name];
      }
      err := None;
    }

    /** `_toggle_filter_type`: the same for the VM classes. */
    method ToggleFilterType(pressed: bool, name: string) returns (err: Option<Error>)
      modifies this`vmType
      ensures pressed ==> Remove(old(vmType), name) == (if err.None? then Ok(vmType) else Err(err.value))
      ensures pressed && err.Some? ==> vmType == old(vmType)
      ensures !pressed ==> err.None? && vmType == old(vmType) + [name]
    {
      if pressed {
        var removed := Remove(vmType, name);
        if removed.Err? {
          return Some(removed.error);
        }
        vmType := removed.value;
      } else {
        vmType := vmType + [name];
      }
      err := None;
    }

    /**
     * The user toggles button i: Gtk flips the button and runs its callback
     * with the new state. The callback never fails, the invariant is kept,
     * only the button's own list changes and the store is left alone.
     */
    method ButtonToggled(i: nat)
      requires Valid() && i < |ButtonsData|
      modifies this`state, this`vmType, this`active
      ensures Valid()
      ensures active == old(active)[ButtonsData[i].name := !old(active)[ButtonsData[i].name]]
      ensures ButtonsData[i].kind == ByState ==>
                vmType == old(vmType) &&
                (if active[ButtonsData[i].name] then Remove(old(state), ButtonsData[i].name) == Ok(state)
                 else state == old(state) + [ButtonsData[i].name])
      ensures ButtonsData[i].kind == ByType ==>
                state == old(state) &&
                (if active[ButtonsData[i].name] then Remove(old(vmType), ButtonsData[i].name) == Ok(vmType)
                 else vmType == old(vmType) + [ButtonsData[i].name])
      ensures unchanged(store)
    {
      ButtonsDataShape();
      var b := ButtonsData[i];
      var pressed := !active[b.name];
      active := active[b.name := pressed];
      ghost var oldState, oldType := state, vmType;
      var err;
      if b.kind == ByState {
        err := ToggleFilterState(pressed, b.name);
        forall y ensures y in state <==> (if y == b.name then !pressed else y in oldState) {
          ListToggle(oldState, b.name, pressed, state, y);
        }
        ListToggle(oldState, b.name, pressed, state, b.name);
      } else {
        err := ToggleFilterType(pressed, b.name);
        forall y ensures y in vmType <==> (if y == b.name then !pressed else y in oldType) {
          ListToggle(oldType, b.name, pressed, vmType, y);
        }
        ListToggle(oldType, b.name, pressed, vmType, b.name);
      }
    }
  }

  /**
   * Toggling a button twice: from pressed, both lists come back exactly;
   * from released, the name moves to the end of its list, so the lists come
   * back as sets (which is all `_filter_func` looks at).
   */
  method ToggleTwice(w: ListBoxWindow, i: nat)
    requires w.Valid() && i < |ButtonsData|
    modifies w`state, w`vmType, w`active
    ensures w.Valid() && w.active == old(w.active)
    ensures old(w.active[ButtonsData[i].name]) ==> w.state == old(w.state) && w.vmType == old(w.vmType)
    ensures forall x :: (x in w.state <==> x in old(w.state)) && (x in w.vmType <==> x in old(w.vmType))
  {
    ghost var s0, t0 := w.state, w.vmType;
    ButtonsDataShape();
    var name := ButtonsData[i].name;
    w.ButtonToggled(i);
    ghost var s1, t1 := w.state, w.vmType;
    w.ButtonToggled(i);
    if old(w.active[name]) {
      if ButtonsData[i].kind == ByState { RemoveAppended(s0, name); } else { RemoveAppended(t0, name); }
    } else {
      forall x ensures (x in w.state <==> x in s0) && (x in w.vmType <==> x in t0) {
        if ButtonsData[i].kind == ByState { RemoveMembers(s0, name, x); } else { RemoveMembers(t0, name, x); }
      }
    }
  }

  /**
   * `ListBoxWindow(app, col_names)`: the filter and buttons, then `_tree_view`
   * (columns, store, tree-view columns). An exception while building the
   * store leaves no window.
   */
  method NewListBoxWindow(app: seq<Vm>, colNames: seq<string>, reg: Columns.Registry)
    returns (r: Result<ListBoxWindow, Error>)
    ensures r.Ok? <==> Rows(app, Columns.Resolve(colNames, reg)).Ok?
    ensures r.Err? ==> Rows(app, Columns.Resolve(colNames, reg)) == Err(r.error)
    ensures r.Ok? ==> fresh(r.value) && fresh(r.value.store) && r.value.Valid()
    ensures r.Ok? ==> r.value.state == ["Halted"] && r.value.vmType == [] && r.value.colNames == colNames
    ensures r.Ok? ==> r.value.columns == Columns.Resolve(colNames, reg)
                      && Columns.ViewColumnsFor(r.value.columns, r.value.viewColumns)
                      && r.value.store.rows == Rows(app, r.value.columns).value
  {
    var columns := Columns.TreeViewColumns(colNames, reg);
    var built := NewDomainsListStore(app, columns);
    if built.Err? {
      return Err(built.error);
    }
    var view := Columns.ViewColumns(columns);
    var w := new ListBoxWindow(colNames, columns, view, built.value);
    return Ok(w);
  }
}
