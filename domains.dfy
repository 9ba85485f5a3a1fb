/**
 * The VM records the table lists, the power-state icon map and the cell
 * extractors of the columns (qui/domains_table.py).
 */
module Domains {
  import opened Wrappers
  import Dicts

  /** A VM label; only its icon name is shown. */
  datatype Label = Label(icon: string)

  /**
   * A VM as the management API exposes it: its name, its class (AppVM,
   * TemplateVM, ...), the power state `get_power_state()` reports, its label,
   * the VM that provides its network (if any) and its other properties.
   */
  datatype Vm = Vm(
    name: string,
    klass: string,
    powerState: string,
    vmLabel: Label,
    netvm: Option<Vm>,
    properties: map<string, string>)

  /** The Python exceptions the modelled code can raise. */
  datatype Error =
    | KeyError(key: string)
    | IndexError(index: int)
    | ValueError(item: string)
    | NoSuchProperty(property: string)

  /** The items of the `ICON_STATE_MAP` display, in the order written. */
  const IconStateItems: seq<(string, string)> := [
    ("media-playback-start", "Running"),
    ("system-run", "Transient"),
    ("media-playback-stop", "Halted")
  ]

  /** `ICON_STATE_MAP`: icon name to power state. */
  const IconStateMap: map<string, string> := Dicts.FromItems(IconStateItems)

  /** The power states the icon map knows. */
  const PowerStates: set<string> := {"Running", "Transient", "Halted"}

  /** The icon shown for a VM without a network VM. */
  const NoNetvmIcon: string := "process-stop"

  lemma IconStateMapIs()
    ensures IconStateMap == map[
      "media-playback-start" := "Running",
      "system-run" := "Transient",
      "media-playback-stop" := "Halted"]
  {
    Dicts.FromThreeItems(IconStateItems[0], IconStateItems[1], IconStateItems[2]);
    assert IconStateItems == [IconStateItems[0], IconStateItems[1], IconStateItems[2]];
  }

  lemma InvertedIconStateMapIs()
    ensures Dicts.FromItems(Dicts.Swapped(IconStateItems)) == map[
      "Running" := "media-playback-start",
      "Transient" := "system-run",
      "Halted" := "media-playback-stop"]
  {
    var items := Dicts.Swapped(IconStateItems);
    Dicts.FromThreeItems(items[0], items[1], items[2]);
    assert items == [items[0], items[1], items[2]];
  }

  /**
   * `state_icon_name`: looks the VM's power state up in the inverse of
   * `ICON_STATE_MAP`; a state the map does not know raises KeyError.
   */
  function StateIconName(vm: Vm): (r: Result<string, Error>)
    ensures r.Ok? <==> vm.powerState in PowerStates
    ensures vm.powerState == "Running" ==> r == Ok("media-playback-start")
    ensures vm.powerState == "Transient" ==> r == Ok("system-run")
    ensures vm.powerState == "Halted" ==> r == Ok("media-playback-stop")
    ensures r.Err? ==> r.error == KeyError(vm.powerState)
  {
    InvertedIconStateMapIs();
    var inverse := Dicts.FromItems(Dicts.Swapped(IconStateItems));
    if vm.powerState in inverse then Ok(inverse[vm.powerState]) else Err(KeyError(vm.powerState))
  }

  /**
   * The map is injective, so mapping a VM's state icon back through
   * `ICON_STATE_MAP` gives its power state again.
   */
  lemma StateIconRoundTrip(vm: Vm)
    requires vm.powerState in PowerStates
    ensures StateIconName(vm).Ok?
    ensures StateIconName(vm).value in IconStateMap
    ensures IconStateMap[StateIconName(vm).value] == vm.powerState
  {
    var items := IconStateItems;
    assert Dicts.DistinctKeys(items);
    assert Dicts.DistinctKeys(Dicts.Swapped(items));
    InvertedIconStateMapIs();
    Dicts.InvertRoundTrip(items, vm.powerState);
  }

  /** `netvm_label`: the fixed "process-stop" icon without a network VM, its label icon otherwise. */
  function NetvmLabel(vm: Vm): (r: string)
    ensures vm.netvm.None? ==> r == NoNetvmIcon
    ensures vm.netvm.Some? ==> r == vm.netvm.value.vmLabel.icon
  {
    if vm.netvm.None? then NoNetvmIcon else vm.netvm.value.vmLabel.icon
  }

  /**
   * "process-stop" means "no network VM" as long as no network VM carries a
   * label whose icon is "process-stop" itself.
   */
  lemma NetvmLabelDisabledIff(vm: Vm)
    requires vm.netvm.Some? ==> vm.netvm.value.vmLabel.icon != NoNetvmIcon
    ensures NetvmLabel(vm) == NoNetvmIcon <==> vm.netvm.None?
  {
  }

  /** Without that condition the two cases cannot be told apart. */
  lemma NetvmLabelAmbiguous(netvm: Vm, vm: Vm)
    requires netvm.vmLabel.icon == NoNetvmIcon && vm.netvm == Some(netvm)
    ensures NetvmLabel(vm) == NetvmLabel(vm.(netvm := None))
  {
  }

  /** How a column obtains its cell from a VM. */
  datatype ColumnKind =
    | LabelIcon                                     // the `LABEL` column: the label icon
    | StateIcon                                     // the `STATE` column: `state_icon_name`
    | NetvmLabelIcon                                // the `NETVM_LABEL` column: `netvm_label`
    | Property(attr: string)                        // a property column made for an unknown name
    | Catalogue(extract: Vm -> Result<string, Error>)  // a standard column defined by qvm-ls

  /** A column: its upper-case header (the registry key) and its extractor. */
  datatype Column = Column(head: string, kind: ColumnKind)

  /** `col.cell(vm)`: the cell a column shows for a VM, or the exception it raises. */
  function Cell(col: Column, vm: Vm): (r: Result<string, Error>)
    ensures col.kind.LabelIcon? ==> r == Ok(vm.vmLabel.icon)
    ensures col.kind.StateIcon? ==> r == StateIconName(vm)
    ensures col.kind.NetvmLabelIcon? ==> r == Ok(NetvmLabel(vm))
    ensures col.kind.Property? ==> (r.Ok? <==> col.kind.attr in vm.properties)
    ensures col.kind.Property? && r.Ok? ==> r.value == vm.properties[col.kind.attr]
    ensures col.kind.Property? && r.Err? ==> r.error == NoSuchProperty(col.kind.attr)
  {
    match col.kind
    case LabelIcon => Ok(vm.vmLabel.icon)
    case StateIcon => StateIconName(vm)
    case NetvmLabelIcon => Ok(NetvmLabel(vm))
    case Property(attr) =>
      if attr in vm.properties then Ok(vm.properties[attr]) else Err(NoSuchProperty(attr))
    case Catalogue(extract) => extract(vm)
  }

  /** The three columns registered when the module is loaded. */
  const LabelColumn: Column := Column("LABEL", LabelIcon)
  const StateColumn: Column := Column("STATE", StateIcon)
  const NetvmLabelColumn: Column := Column("NETVM_LABEL", NetvmLabelIcon)
}
