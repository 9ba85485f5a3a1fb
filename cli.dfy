/** The column choice of `main` (qui/domains_table.py): presets, `--fields` and property columns. */
module Cli {
  import opened Wrappers
  import opened Domains
  import Text
  import Columns
  import Store
  import Window

  /** `formats`: the named column presets. */
  const Formats: map<string, seq<string>> := map[
    "simple" := ["state", "label", "name", "class", "template", "netvm_label", "netvm"],
    "network" := ["state", "label", "name", "netvm_label", "netvm", "ip", "ipback", "gateway"],
    "full" := ["state", "label", "name", "class", "qid", "xid", "uuid"],
    "disk" := ["state", "label", "name", "disk", "priv-curr", "priv-max", "priv-used",
               "root-curr", "root-max", "root-used"]
  ]

  /** `formats[format]` for a formats table: a name without a preset raises KeyError. */
  function PresetIn(formats: map<string, seq<string>>, format: string): (r: Result<seq<string>, Error>)
    ensures r.Ok? <==> format in formats
    ensures r.Ok? ==> r.value == formats[format]
    ensures r.Err? ==> r.error == KeyError(format)
  {
    if format in formats then Ok(formats[format]) else Err(KeyError(format))
  }

  /** `formats[args.format]`: a name without a preset raises KeyError; every preset starts with state, label, name. */
  function Preset(format: string): (r: Result<seq<string>, Error>)
    ensures r.Ok? <==> format in {"simple", "network", "full", "disk"}
    ensures r.Err? ==> r.error == KeyError(format)
    ensures r.Ok? ==> |r.value| > 3 && r.value[..3] == ["state", "label", "name"]
  {
    PresetIn(Formats, format)
  }

  /** Cell 3 of the store holds the VM class only in the simple and full presets. */
  lemma PresetTypePosition(format: string)
    requires Preset(format).Ok?
    ensures Preset(format).value[3] == "class" <==> format in {"simple", "full"}
  {
  }

  /** Preset names have no surrounding spaces. */
  lemma PresetNamesStripped(format: string)
    requires Preset(format).Ok?
    ensures forall i :: 0 <= i < |Preset(format).value| ==> Text.Strip(Preset(format).value[i]) == Preset(format).value[i]
  {
    var names := Preset(format).value;
    forall i | 0 <= i < |names| ensures Text.Strip(names[i]) == names[i] {
      Text.StripStripped(names[i]);
    }
  }

  /** The stripped pieces of a comma-separated list. */
  function FieldNames(fields: string): (names: seq<string>)
    ensures |names| == |Text.Split(fields, ',')|
    ensures forall i :: 0 <= i < |names| ==> names[i] == Text.Strip(Text.Split(fields, ',')[i])
  {
    var parts := Text.Split(fields, ',');
    seq(|parts|, i requires 0 <= i < |parts| => Text.Strip(parts[i]))
  }

  /**
   * The column choice of `main`: a non-empty `--fields` is split on commas and stripped,
   * otherwise the preset named by `--format` is looked up in `formats`.
   */
  function ChooseColumnNames(fields: Option<string>, format: string, formats: map<string, seq<string>>)
    : (r: Result<seq<string>, Error>)
    ensures r.Err? <==> (fields.None? || fields.value == "") && format !in formats
    ensures r.Err? ==> r.error == KeyError(format)
    ensures fields.Some? && fields.value != "" ==> r.Ok? && |r.value| == |Text.Split(fields.value, ',')|
    ensures fields.Some? && fields.value != "" ==>
              forall i :: 0 <= i < |r.value| ==> r.value[i] == Text.Strip(Text.Split(fields.value, ',')[i])
    ensures (fields.None? || fields.value == "") && format in formats ==> r == Ok(formats[format])
  {
    if fields.Some? && fields.value != "" then Ok(FieldNames(fields.value)) else PresetIn(formats, format)
  }

  /** " name , class" splits at its one comma. */
  lemma SplitSpaced(fields: string)
    requires fields == " name , class"
    ensures Text.Split(fields, ',') == [" name ", " class"]
  {
    var name, klass := " name ", " class";
    var pieces := [name, klass];
    assert pieces[1..] == [klass];
    assert Text.Join(pieces, ',') == name + [','] + klass;
    assert name + [','] + klass == fields;
    Text.SplitJoin(pieces, ',');
  }

  /** The two pieces of " name , class" strip to name and class. */
  lemma StripSpacedPieces()
    ensures Text.Strip(" name ") == "name" && Text.Strip(" class") == "class"
  {
    Text.StripPadded(" ", "name", " ");
    assert " " + "name" + " " == " name ";
    Text.StripPadded(" ", "class", "");
    assert " " + "class" + "" == " class";
  }

  /** Spaces around the names of `--fields` are dropped: " name , class" chooses name and class. */
  lemma FieldsWithSpaces(fields: string, format: string, formats: map<string, seq<string>>)
    requires fields == " name , class"
    ensures ChooseColumnNames(Some(fields), format, formats) == Ok(["name", "class"])
  {
    SplitSpaced(fields);
    StripSpacedPieces();
    var names := FieldNames(fields);
    assert names[0] == "name" && names[1] == "class";
    assert names == ["name", "class"];
  }

  /** Every chosen name is already stripped, so `main` and `_tree_view` compute the same key for it. */
  lemma ChosenNamesStripped(fields: Option<string>, format: string)
    requires ChooseColumnNames(fields, format, Formats).Ok?
    ensures forall i :: 0 <= i < |ChooseColumnNames(fields, format, Formats).value| ==>
              Text.Strip(ChooseColumnNames(fields, format, Formats).value[i])
                == ChooseColumnNames(fields, format, Formats).value[i]
  {
    if fields.Some? && fields.value != "" {
      var names := FieldNames(fields.value);
      forall i | 0 <= i < |names| ensures Text.Strip(names[i]) == names[i] {
        Text.StripIdempotent(Text.Split(fields.value, ',')[i]);
      }
    } else {
      PresetNamesStripped(format);
    }
  }

  /**
   * Writing stripped, comma-free names as `--fields` chooses exactly those
   * names (a single empty name would make `--fields` empty, which selects
   * the preset instead).
   */
  lemma FieldsRoundTrip(names: seq<string>, format: string, formats: map<string, seq<string>>)
    requires |names| >= 1 && names != [""]
    requires forall i :: 0 <= i < |names| ==> ',' !in names[i] && Text.Strip(names[i]) == names[i]
    ensures ChooseColumnNames(Some(Text.Join(names, ',')), format, formats) == Ok(names)
  {
    FieldNamesOfJoin(names);
    JoinNonEmpty(names);
  }

  /** Joining with commas gives the empty string only for the single empty name. */
  lemma JoinNonEmpty(names: seq<string>)
    requires |names| >= 1 && names != [""]
    ensures Text.Join(names, ',') != ""
  {
  }

  lemma FieldNamesOfJoin(names: seq<string>)
    requires |names| >= 1
    requires forall i :: 0 <= i < |names| ==> ',' !in names[i] && Text.Strip(names[i]) == names[i]
    ensures FieldNames(Text.Join(names, ',')) == names
  {
    var fields := Text.Join(names, ',');
    Text.SplitJoin(names, ',');
    var chosen := FieldNames(fields);
    assert |chosen| == |names|;
    forall i | 0 <= i < |names| ensures chosen[i] == names[i] {
      assert chosen[i] == Text.Strip(names[i]);
    }
  }

  /** The registry after `main` registered a property column for each unknown name, in order. */
  function WithPropertyColumns(reg: Columns.Registry, names: seq<string>): Columns.Registry
  {
    if names == [] then reg
    else
      var before := WithPropertyColumns(reg, names[..|names| - 1]);
      var name := names[|names| - 1];
      if Text.Upper(name) in before then before
      else before[Text.Upper(name) := Columns.PropertyColumn(Text.Lower(name))]
  }

  /** Afterwards every chosen name is registered under its upper-case form. */
  lemma {:induction false} WithPropertyColumnsCovers(reg: Columns.Registry, names: seq<string>)
    ensures forall i :: 0 <= i < |names| ==> Text.Upper(names[i]) in WithPropertyColumns(reg, names)
  {
    if names != [] {
      var front := names[..|names| - 1];
      WithPropertyColumnsCovers(reg, front);
      WithPropertyColumnsKeeps(WithPropertyColumns(reg, front), [names[|names| - 1]]);
      assert forall i :: 0 <= i < |front| ==> front[i] == names[i];
    }
  }

  /** What was registered before is left untouched. */
  lemma {:induction false} WithPropertyColumnsKeeps(reg: Columns.Registry, names: seq<string>)
    ensures forall k :: k in reg ==> k in WithPropertyColumns(reg, names) && WithPropertyColumns(reg, names)[k] == reg[k]
  {
    if names != [] {
      WithPropertyColumnsKeeps(reg, names[..|names| - 1]);
    }
  }

  /** Each new entry is the property column of one of the names, in lower case. */
  lemma {:induction false} WithPropertyColumnsAdds(reg: Columns.Registry, names: seq<string>)
    ensures forall k :: k in WithPropertyColumns(reg, names) && k !in reg ==>
              exists i :: 0 <= i < |names| && k == Text.Upper(names[i])
                          && WithPropertyColumns(reg, names)[k] == Columns.PropertyColumn(Text.Lower(names[i]))
  {
    if names != [] {
      var front, name := names[..|names| - 1], names[|names| - 1];
      WithPropertyColumnsAdds(reg, front);
      var before, after := WithPropertyColumns(reg, front), WithPropertyColumns(reg, names);
      forall k | k in after && k !in reg
        ensures exists i :: 0 <= i < |names| && k == Text.Upper(names[i])
                            && after[k] == Columns.PropertyColumn(Text.Lower(names[i]))
      {
        if k in before {
          var i :| 0 <= i < |front| && k == Text.Upper(front[i])
                   && before[k] == Columns.PropertyColumn(Text.Lower(front[i]));
          assert front[i] == names[i];
          assert after[k] == before[k];
        } else {
          assert k == Text.Upper(name) && after[k] == Columns.PropertyColumn(Text.Lower(name));
        }
      }
    }
  }

  /** The loop of `main` that registers a property column for each name the registry does not know. */
  method RegisterUnknownColumns(registry: Columns.ColumnRegistry, names: seq<string>)
    modifies registry
    ensures registry.columns == WithPropertyColumns(old(registry.columns), names)
    ensures old(registry.Valid()) ==> registry.Valid()
  {
    for i := 0 to |names|
      invariant registry.columns == WithPropertyColumns(old(registry.columns), names[..i])
      invariant old(registry.Valid()) ==> registry.Valid()
    {
      assert names[..i + 1][..i] == names[..i];
      var col := names[i];
      if Text.Upper(col) !in registry.columns {
        Text.UpperOfLower(col);
        registry.Register(Columns.PropertyColumn(Text.Lower(col)));
      }
    }
    assert names[..|names|] == names;
  }

  /** After registration `_tree_view` keeps every chosen name: none is dropped as unknown. */
  lemma EveryChosenColumnKept(names: seq<string>, reg: Columns.Registry)
    requires forall i :: 0 <= i < |names| ==> Text.Strip(names[i]) == names[i]
    ensures |Columns.Resolve(names, WithPropertyColumns(reg, names))| == |names|
  {
    var after := WithPropertyColumns(reg, names);
    WithPropertyColumnsCovers(reg, names);
    forall i | 0 <= i < |names| ensures Columns.ColumnKey(names[i]) in after {
      assert Columns.ColumnKey(names[i]) == Text.Upper(names[i]);
    }
    Columns.ResolveAllKnown(names, after);
  }

  /**
   * `main` after argument parsing: choose the names, register unknown ones as
   * property columns, then open the window. A missing preset raises
   * KeyError before anything is registered.
   */
  method Start(app: seq<Vm>, fields: Option<string>, format: string, registry: Columns.ColumnRegistry)
    returns (r: Result<Window.ListBoxWindow, Error>)
    modifies registry
    ensures ChooseColumnNames(fields, format, Formats).Err? ==>
              r == Err(ChooseColumnNames(fields, format, Formats).error) && registry.columns == old(registry.columns)
    ensures ChooseColumnNames(fields, format, Formats).Ok? ==>
              var names := ChooseColumnNames(fields, format, Formats).value;
              && registry.columns == WithPropertyColumns(old(registry.columns), names)
              && (r.Ok? <==> Store.Rows(app, Columns.Resolve(names, registry.columns)).Ok?)
              && (r.Ok? ==> fresh(r.value) && r.value.colNames == names && r.value.Valid()
                            && r.value.columns == Columns.Resolve(names, registry.columns)
                            && |r.value.columns| == |names|
                            && Columns.ViewColumnsFor(r.value.columns, r.value.viewColumns)
                            && r.value.store.rows == Store.Rows(app, r.value.columns).value
                            && r.value.state == ["Halted"] && r.value.vmType == [])
    ensures old(registry.Valid()) ==> registry.Valid()
  {
    var chosen := ChooseColumnNames(fields, format, Formats);
    if chosen.Err? {
      return Err(chosen.error);
    }
    var names := chosen.value;
    RegisterUnknownColumns(registry, names);
    ChosenNamesStripped(fields, format);
    EveryChosenColumnKept(names, old(registry.columns));
    r := Window.NewListBoxWindow(app, names, registry.columns);
  }
}
