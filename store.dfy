/** The row store of the table: `DomainsListStore` (qui/domains_table.py). */
module Store {
  import opened Wrappers
  import opened Domains

  /** One row of the store: one string cell per column. */
  type Row = seq<string>

  /** The name of the administrative domain, which is never listed. */
  const Dom0: string := "dom0"

  /** `[col.cell(vm) for col in columns]`: cells left to right; the first failing cell's exception propagates. */
  function RowOf(vm: Vm, columns: seq<Column>): (r: Result<Row, Error>)
    ensures r.Ok? <==> forall i :: 0 <= i < |columns| ==> Cell(columns[i], vm).Ok?
    ensures r.Ok? ==> |r.value| == |columns|
    ensures r.Ok? ==> forall i :: 0 <= i < |columns| ==> Cell(columns[i], vm) == Ok(r.value[i])
  {
    if columns == [] then Ok([])
    else
      match Cell(columns[0], vm)
      case Err(e) => Err(e)
      case Ok(c) =>
        match RowOf(vm, columns[1..])
        case Err(e) => Err(e)
        case Ok(rest) => Ok([c] + rest)
  }

  /** A failing row reports the exception of its first failing cell. */
  lemma {:induction false} RowOfFirstError(vm: Vm, columns: seq<Column>)
    requires RowOf(vm, columns).Err?
    ensures exists i :: 0 <= i < |columns| && Cell(columns[i], vm) == Err(RowOf(vm, columns).error)
                        && forall j :: 0 <= j < i ==> Cell(columns[j], vm).Ok?
  {
    if Cell(columns[0], vm).Ok? {
      RowOfFirstError(vm, columns[1..]);
      var i :| 0 <= i < |columns| - 1 && Cell(columns[1..][i], vm) == Err(RowOf(vm, columns[1..]).error)
                && forall j :: 0 <= j < i ==> Cell(columns[1..][j], vm).Ok?;
      assert Cell(columns[i + 1], vm) == Err(RowOf(vm, columns).error);
      forall j | 0 <= j < i + 1 ensures Cell(columns[j], vm).Ok? {
        if j > 0 { assert columns[j] == columns[1..][j - 1]; }
      }
    }
  }

  /** The VMs the loop of `__init__` does not skip, in iteration order. */
  function Listed(domains: seq<Vm>): (r: seq<Vm>)
    ensures |r| <= |domains|
  {
    if domains == [] then []
    else
      var last := domains[|domains| - 1];
      Listed(domains[..|domains| - 1]) + (if last.name == Dom0 then [] else [last])
  }

  /** Skipping works VM by VM, so the iteration order is kept. */
  lemma {:induction false} ListedAppend(a: seq<Vm>, b: seq<Vm>)
    ensures Listed(a + b) == Listed(a) + Listed(b)
  {
    if b == [] {
      assert a + b == a;
    } else {
      var ab, front, last := a + b, b[..|b| - 1], b[|b| - 1];
      var tail := if last.name == Dom0 then [] else [last];
      assert ab[..|ab| - 1] == a + front;
      assert ab[|ab| - 1] == last;
      assert Listed(ab) == Listed(a + front) + tail;
      assert Listed(b) == Listed(front) + tail;
      ListedAppend(a, front);
      assert Listed(a) + Listed(front) + tail == Listed(a) + (Listed(front) + tail);
    }
  }

  /** Exactly the VMs not named dom0 are listed. */
  lemma {:induction false} ListedMembers(domains: seq<Vm>, vm: Vm)
    ensures vm in Listed(domains) <==> vm in domains && vm.name != Dom0
  {
    if domains != [] {
      var front := domains[..|domains| - 1];
      ListedMembers(front, vm);
      assert domains == front + [domains[|domains| - 1]];
    }
  }

  lemma ListedOne(vm: Vm)
    ensures Listed([vm]) == if vm.name == Dom0 then [] else [vm]
  {
  }

  /** The rows of `vms`, in order; the first failing VM's exception propagates. */
  function Project(vms: seq<Vm>, columns: seq<Column>): Result<seq<Row>, Error>
  {
    if vms == [] then Ok([])
    else
      var front := vms[..|vms| - 1];
      match Project(front, columns)
      case Err(e) => Err(e)
      case Ok(rows) =>
        match RowOf(vms[|vms| - 1], columns)
        case Err(e) => Err(e)
        case Ok(row) => Ok(rows + [row])
  }

  /** The projection succeeds iff every VM's row does, and then holds those rows in order. */
  lemma {:induction false} ProjectSpec(vms: seq<Vm>, columns: seq<Column>)
    ensures Project(vms, columns).Ok? <==> forall j :: 0 <= j < |vms| ==> RowOf(vms[j], columns).Ok?
    ensures Project(vms, columns).Ok? ==> |Project(vms, columns).value| == |vms|
    ensures Project(vms, columns).Ok? ==>
              forall j :: 0 <= j < |vms| ==> Project(vms, columns).value[j] == RowOf(vms[j], columns).value
  {
    if vms != [] {
      var front := vms[..|vms| - 1];
      ProjectSpec(front, columns);
      assert forall j :: 0 <= j < |front| ==> front[j] == vms[j];
    }
  }

  /** Once a VM fails, the VMs after it change nothing. */
  lemma {:induction false} ProjectErrorSticks(a: seq<Vm>, b: seq<Vm>, columns: seq<Column>)
    requires Project(a, columns).Err?
    ensures Project(a + b, columns) == Project(a, columns)
  {
    if b == [] {
      assert a + b == a;
    } else {
      var ab, front := a + b, b[..|b| - 1];
      assert ab[..|ab| - 1] == a + front;
      ProjectErrorSticks(a, front, columns);
    }
  }

  /** The content `DomainsListStore(app, columns)` is built with. */
  function Rows(domains: seq<Vm>, columns: seq<Column>): Result<seq<Row>, Error>
  {
    Project(Listed(domains), columns)
  }

  /**
   * Every VM not named dom0 gives exactly one row, in iteration order, and
   * that row holds one cell per column, cell i being `columns[i].cell(vm)`.
   */
  lemma RowsShape(domains: seq<Vm>, columns: seq<Column>)
    requires Rows(domains, columns).Ok?
    ensures |Rows(domains, columns).value| == |Listed(domains)|
    ensures forall j, i :: 0 <= j < |Listed(domains)| && 0 <= i < |columns| ==>
              |Rows(domains, columns).value[j]| == |columns| &&
              Cell(columns[i], Listed(domains)[j]) == Ok(Rows(domains, columns).value[j][i])
  {
    var vms := Listed(domains);
    ProjectSpec(vms, columns);
    var rows := Project(vms, columns).value;
    forall j, i | 0 <= j < |vms| && 0 <= i < |columns|
      ensures |rows[j]| == |columns| && Cell(columns[i], vms[j]) == Ok(rows[j][i])
    {
      assert rows[j] == RowOf(vms[j], columns).value;
    }
  }

  /** A VM named dom0 gives no row, wherever it stands in the collection. */
  lemma RowsSkipDom0(a: seq<Vm>, d0: Vm, b: seq<Vm>, columns: seq<Column>)
    requires d0.name == Dom0
    ensures Rows(a + [d0] + b, columns) == Rows(a + b, columns)
  {
    ListedAppend(a + [d0], b);
    ListedAppend(a, [d0]);
    ListedOne(d0);
    ListedAppend(a, b);
    assert Listed(a) + [] == Listed(a);
  }

  /** The Gtk list store: a fixed number of string columns and the rows appended so far. */
  class DomainsListStore {
    const width: nat
    var rows: seq<Row>

    /** Every row has one cell per store column. */
    ghost predicate Valid()
      reads this
    {
      forall i :: 0 <= i < |rows| ==> |rows[i]| == width
    }

    constructor Empty(width: nat)
      ensures this.width == width && rows == [] && Valid()
    {
      this.width := width;
      rows := [];
    }

    /** `ListStore.append`. */
    method Append(row: Row)
      requires Valid() && |row| == width
      modifies this
      ensures Valid() && rows == old(rows) + [row]
    {
      rows := rows + [row];
    }
  }

  lemma ListedStep(domains: seq<Vm>, i: nat)
    requires i < |domains|
    ensures Listed(domains[..i + 1]) == Listed(domains[..i]) + (if domains[i].name == Dom0 then [] else [domains[i]])
  {
    assert domains[..i + 1][..i] == domains[..i];
  }

  lemma ProjectStep(vms: seq<Vm>, vm: Vm, columns: seq<Column>)
    requires Project(vms, columns).Ok?
    ensures RowOf(vm, columns).Ok? ==>
              Project(vms + [vm], columns) == Ok(Project(vms, columns).value + [RowOf(vm, columns).value])
    ensures RowOf(vm, columns).Err? ==> Project(vms + [vm], columns) == Err(RowOf(vm, columns).error)
  {
  }

  /** The VMs listed from a source, split around a VM at position i that is not dom0. */
  lemma ListedAround(domains: seq<Vm>, i: nat)
    requires i < |domains| && domains[i].name != Dom0
    ensures Listed(domains) == Listed(domains[..i]) + [domains[i]] + Listed(domains[i + 1..])
  {
    var upto, after := domains[..i + 1], domains[i + 1..];
    assert upto + after == domains;
    ListedAppend(upto, after);
    ListedStep(domains, i);
    assert Listed(upto) == Listed(domains[..i]) + [domains[i]];
  }

  /** If the VM at position i fails and everything before it succeeded, the store build fails with its exception. */
  lemma RowsFailAt(domains: seq<Vm>, i: nat, columns: seq<Column>)
    requires i < |domains| && domains[i].name != Dom0
    requires Project(Listed(domains[..i]), columns).Ok? && RowOf(domains[i], columns).Err?
    ensures Rows(domains, columns) == Err(RowOf(domains[i], columns).error)
  {
    var before, after := Listed(domains[..i]), Listed(domains[i + 1..]);
    var upto := before + [domains[i]];
    ListedAround(domains, i);
    ProjectStep(before, domains[i], columns);
    ProjectErrorSticks(upto, after, columns);
  }

  /**
   * `DomainsListStore.__init__`: one store column per column, then one row per
   * VM, skipping dom0. An exception from a cell leaves no store behind.
   */
  method NewDomainsListStore(domains: seq<Vm>, columns: seq<Column>) returns (r: Result<DomainsListStore, Error>)
    ensures r.Ok? <==> Rows(domains, columns).Ok?
    ensures r.Ok? ==> fresh(r.value) && r.value.Valid() && r.value.width == |columns|
                      && r.value.rows == Rows(domains, columns).value
    ensures r.Err? ==> Rows(domains, columns) == Err(r.error)
  {
    var store := new DomainsListStore.Empty(|columns|);
    for i := 0 to |domains|
      invariant store.Valid() && store.width == |columns| && fresh(store)
      invariant Project(Listed(domains[..i]), columns) == Ok(store.rows)
    {
      var vm := domains[i];
      ghost var before := Listed(domains[..i]);
      ListedStep(domains, i);
      if vm.name == Dom0 {
        assert before + [] == before;
        assert Listed(domains[..i + 1]) == before;
        continue;
      }
      assert Listed(domains[..i + 1]) == before + [vm];
      var row := RowOf(vm, columns);
      ProjectStep(before, vm, columns);
      if row.Err? {
        RowsFailAt(domains, i, columns);
        return Err(row.error);
      }
      ghost var rowsBefore := store.rows;
      store.Append(row.value);
      assert store.rows == rowsBefore + [row.value];
    }
    assert domains[..|domains|] == domains;
    return Ok(store);
  }
}
