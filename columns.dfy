/**
 * The column registry of qvm-ls (`qvm_ls.Column.columns`, keyed by upper-case
 * header) and the column choice of `ListBoxWindow._tree_view`.
 */
module Columns {
  import opened Domains
  import Text

  /** Upper-case header to column. */
  type Registry = map<string, Column>

  /** The process-wide column registry; constructing a qvm-ls column registers it under its header. */
  class ColumnRegistry {
    var columns: Registry

    /** Every column is filed under its own header. */
    ghost predicate Valid()
      reads this
    {
      forall k :: k in columns ==> columns[k].head == k
    }

    constructor (catalogue: Registry)
      requires forall k :: k in catalogue ==> catalogue[k].head == k
      ensures columns == catalogue && Valid()
    {
      columns := catalogue;
    }

    /** `Column.__init__`: a column with an existing header replaces the old one. */
    method Register(col: Column)
      modifies this
      ensures columns == old(columns)[col.head := col]
      ensures old(Valid()) ==> Valid()
    {
      columns := columns[col.head := col];
    }

    /** The three column definitions at the top level of the module, run on import. */
    method RegisterBuiltins()
      modifies this
      ensures columns == old(columns)["LABEL" := LabelColumn]["STATE" := StateColumn]
                                     ["NETVM_LABEL" := NetvmLabelColumn]
      ensures forall k :: k in old(columns) && k !in {"LABEL", "STATE", "NETVM_LABEL"} ==>
                k in columns && columns[k] == old(columns)[k]
      ensures old(Valid()) ==> Valid()
    {
      Register(LabelColumn);
      Register(StateColumn);
      Register(NetvmLabelColumn);
    }
  }

  /** `qvm_ls.PropertyColumn(name)`: a column showing the VM property `name`, under the upper-case header. */
  function PropertyColumn(name: string): (col: Column)
    ensures col.head == Text.Upper(name) && col.kind == Property(name)
  {
    Column(Text.Upper(name), Property(name))
  }

  /** The registry key `_tree_view` looks a requested name up under. */
  function ColumnKey(name: string): string
  {
    Text.Upper(Text.Strip(name))
  }

  /** The registry keys of the requested names, one per name. */
  function Keys(names: seq<string>): (keys: seq<string>)
    ensures |keys| == |names|
    ensures forall i :: 0 <= i < |names| ==> keys[i] == ColumnKey(names[i])
  {
    seq(|names|, i requires 0 <= i < |names| => ColumnKey(names[i]))
  }

  /** The registered columns among `keys`, in order; unknown keys are skipped. */
  function Kept(keys: seq<string>, reg: Registry): (columns: seq<Column>)
    ensures |columns| <= |keys|
  {
    if keys == [] then []
    else
      var key := keys[|keys| - 1];
      Kept(keys[..|keys| - 1], reg) + (if key in reg then [reg[key]] else [])
  }

  /** The columns `_tree_view` keeps for the requested names. */
  function Resolve(names: seq<string>, reg: Registry): (columns: seq<Column>)
    ensures |columns| <= |names|
  {
    Kept(Keys(names), reg)
  }

  /** A single name contributes its registered column, or nothing if it is unknown. */
  lemma ResolveOne(name: string, reg: Registry)
    ensures ColumnKey(name) in reg ==> Resolve([name], reg) == [reg[ColumnKey(name)]]
    ensures ColumnKey(name) !in reg ==> Resolve([name], reg) == []
  {
  }

  lemma {:induction false} KeptAppend(a: seq<string>, b: seq<string>, reg: Registry)
    ensures Kept(a + b, reg) == Kept(a, reg) + Kept(b, reg)
  {
    if b == [] {
      assert a + b == a;
    } else {
      var ab, front := a + b, b[..|b| - 1];
      assert ab[..|ab| - 1] == a + front;
      assert ab[|ab| - 1] == b[|b| - 1];
      KeptAppend(a, front, reg);
    }
  }

  /** Resolution works name by name, so the requested order is kept. */
  lemma ResolveAppend(a: seq<string>, b: seq<string>, reg: Registry)
    ensures Resolve(a + b, reg) == Resolve(a, reg) + Resolve(b, reg)
  {
    assert Keys(a + b) == Keys(a) + Keys(b);
    KeptAppend(Keys(a), Keys(b), reg);
  }

  lemma {:induction false} KeptAllKnown(keys: seq<string>, reg: Registry)
    requires forall i :: 0 <= i < |keys| ==> keys[i] in reg
    ensures |Kept(keys, reg)| == |keys|
    ensures forall i :: 0 <= i < |keys| ==> Kept(keys, reg)[i] == reg[keys[i]]
  {
    if keys != [] {
      KeptAllKnown(keys[..|keys| - 1], reg);
    }
  }

  /** When every name is registered, no column is dropped and each is the registered one. */
  lemma ResolveAllKnown(names: seq<string>, reg: Registry)
    requires forall i :: 0 <= i < |names| ==> ColumnKey(names[i]) in reg
    ensures |Resolve(names, reg)| == |names|
    ensures forall i :: 0 <= i < |names| ==> Resolve(names, reg)[i] == reg[ColumnKey(names[i])]
  {
    KeptAllKnown(Keys(names), reg);
  }

  /** The loop of `_tree_view` that collects the requested, registered columns. */
  method TreeViewColumns(names: seq<string>, reg: Registry) returns (columns: seq<Column>)
    ensures columns == Resolve(names, reg)
  {
    columns := [];
    for i := 0 to |names|
      invariant columns == Kept(Keys(names[..i]), reg)
    {
      var key := Text.Upper(Text.Strip(names[i]));
      ghost var keys := Keys(names[..i + 1]);
      assert keys[..i] == Keys(names[..i]) && keys[i] == key;
      if key in reg {
        columns := columns + [reg[key]];
      }
    }
    assert names[..|names|] == names;
  }

  /** How a tree-view column draws its cells. */
  datatype Renderer = IconRenderer | TextRenderer

  /** A tree-view column: its title, its renderer and the store column it shows. */
  datatype ViewColumn = ViewColumn(title: string, renderer: Renderer, storeIndex: nat)

  /** The headers whose cells are icon names. */
  const IconHeads: seq<string> := ["STATE", "LABEL", "NETVM_LABEL"]

  /**
   * `view` is the tree view `_tree_view` builds for `columns`: column i shows
   * store column i, icon headers get a blank title and an icon renderer, the
   * others their header and a text renderer.
   */
  ghost predicate ViewColumnsFor(columns: seq<Column>, view: seq<ViewColumn>)
  {
    && |view| == |columns|
    && (forall i :: 0 <= i < |columns| ==> view[i].storeIndex == i)
    && (forall i :: 0 <= i < |columns| && columns[i].head in IconHeads ==>
          view[i].title == " " && view[i].renderer == IconRenderer)
    && (forall i :: 0 <= i < |columns| && columns[i].head !in IconHeads ==>
          view[i].title == columns[i].head && view[i].renderer == TextRenderer)
  }

  /** The loop of `_tree_view` that creates one tree-view column per kept column. */
  method ViewColumns(columns: seq<Column>) returns (view: seq<ViewColumn>)
    ensures ViewColumnsFor(columns, view)
  {
    view := [];
    for index := 0 to |columns|
      invariant |view| == index
      invariant forall i :: 0 <= i < index ==> view[i].storeIndex == i
      invariant forall i :: 0 <= i < index && columns[i].head in IconHeads ==>
                  view[i].title == " " && view[i].renderer == IconRenderer
      invariant forall i :: 0 <= i < index && columns[i].head !in IconHeads ==>
                  view[i].title == columns[i].head && view[i].renderer == TextRenderer
    {
      var col := columns[index];
      var vc;
      if col.head in IconHeads {
        vc := ViewColumn(" ", IconRenderer, index);
      } else {
        vc := ViewColumn(col.head, TextRenderer, index);
      }
      view := view + [vc];
    }
  }
}
