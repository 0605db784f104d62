/** The field registry: the `manual_fields` list of `src/fields/manual.py`
    and the `auto_fields` list of `src/fields/auto.py`, each field built by
    its constructor and then given its validator. */
module Registry {
  import opened Common
  import opened Values
  import opened Fields
  import Config

  /** The arguments of one `ManualField(...)` call, plus the validator the
      module assigns to the field afterwards. */
  datatype ManualSpec = ManualSpec(name: string, display: string, typeName: string,
                                   default: Option<Value>, options: seq<string>, rule: ManualRule)

  /** The arguments of one `AutoField(...)` call, plus its validator. */
  datatype AutoSpec = AutoSpec(name: string, display: string, typeName: string,
                               default: Option<Value>, rule: AutoRule)

  /** A constructor call followed by `field.validate_fn = ...`. */
  function BuildManual(s: ManualSpec): (r: Result<ManualField>)
    ensures r.Ok? <==> s.typeName in ValidManualTypes && s.name in Config.ApiNames
    ensures r.Ok? ==> r.value.core.name == s.name && r.value.core.apiName == Config.ApiNames[s.name]
    ensures r.Ok? ==> r.value.rule == s.rule && r.value.options == s.options
    ensures r.Ok? ==> r.value.core.value == s.default && KindName(r.value.kind) == s.typeName
  {
    match NewManualField(s.name, s.display, s.typeName, s.default, s.options)
    case Err(m) => Err(m)
    case Ok(f) => Ok(f.(rule := s.rule))
  }

  function BuildAuto(s: AutoSpec): (r: Result<AutoField>)
    ensures r.Ok? <==> s.name in Config.ApiNames
    ensures r.Ok? ==> r.value.core.name == s.name && r.value.core.apiName == Config.ApiNames[s.name]
    ensures r.Ok? ==> r.value.rule == s.rule && r.value.error.None?
    ensures r.Ok? ==> r.value.core.value == s.default && r.value.typeName == s.typeName
  {
    match NewAutoField(s.name, s.display, s.typeName, s.default, [])
    case Err(m) => Err(m)
    case Ok(f) => Ok(f.(rule := s.rule))
  }

  /** Module import: the first constructor that raises aborts it. */
  function AllOk<T>(rs: seq<Result<T>>): (r: Result<seq<T>>)
    ensures r.Ok? <==> forall i :: 0 <= i < |rs| ==> rs[i].Ok?
    ensures r.Ok? ==> |r.value| == |rs| && forall i :: 0 <= i < |rs| ==> r.value[i] == rs[i].value
    decreases |rs|
  {
    if rs == [] then Ok([])
    else match rs[0]
      case Err(m) => Err(m)
      case Ok(x) =>
        match AllOk(rs[1..])
        case Err(m) => Err(m)
        case Ok(xs) => Ok([x] + xs)
  }

  function BuildAllManual(specs: seq<ManualSpec>): (r: seq<Result<ManualField>>)
    ensures |r| == |specs| && forall i :: 0 <= i < |specs| ==> r[i] == BuildManual(specs[i])
  {
    seq(|specs|, i requires 0 <= i < |specs| => BuildManual(specs[i]))
  }

  function BuildAllAuto(specs: seq<AutoSpec>): (r: seq<Result<AutoField>>)
    ensures |r| == |specs| && forall i :: 0 <= i < |specs| ==> r[i] == BuildAuto(specs[i])
  {
    seq(|specs|, i requires 0 <= i < |specs| => BuildAuto(specs[i]))
  }

  /** The entries of `manual_fields`, in order. */
  const ManualSpecs: seq<ManualSpec> := [
    ManualSpec("CRID", "CRID", "id", None, [], CridRule),
    ManualSpec("has_webcam", "Has webcam?", "bool", Some(Bool(false)), [], WebcamRule),
    ManualSpec("video_ports", "Video ports", "multiselect", Some(List([])), Config.VideoPortOptions, OptionRule),
    ManualSpec("num_usb_ports", "# USB ports", "int", None, [], UsbRule),
    ManualSpec("adapter_watts", "Adapter watts", "text", None, [], DefaultRule),
    ManualSpec("final_os", "Final OS", "select", None, Config.FinalOsOptions, OptionRule)
  ]

  /** The entries of `auto_fields`, in order; `storage` has none. */
  const AutoSpecs: seq<AutoSpec> := [
    AutoSpec("model_name", "CPU model name", "text", None, ModelRule),
    AutoSpec("RAM", "RAM (GB)", "int", None, RamRule),
    AutoSpec("screen_size", "Screen size (inch)", "number", None, ScreenRule),
    AutoSpec("battery_health", "Battery health", "text", None, BatteryRule),
    AutoSpec("has_ethernet", "Has ethernet?", "bool", Some(Bool(false)), PresenceRule),
    AutoSpec("has_wifi", "Has WiFi?", "bool", Some(Bool(false)), PresenceRule),
    AutoSpec("has_optical_drive", "Has optical drive?", "bool", Some(Bool(false)), PresenceRule),
    AutoSpec("has_touchscreen", "Has touchscreen?", "bool", Some(Bool(false)), PresenceRule)
  ]

  /** `manual_fields`. */
  function ManualFields(): Result<seq<ManualField>> {
    AllOk(BuildAllManual(ManualSpecs))
  }

  /** `auto_fields`. */
  function AutoFields(): Result<seq<AutoField>> {
    AllOk(BuildAllAuto(AutoSpecs))
  }

  /** The names of `auto_fields`: `AUTO_FIELDS` without `storage`. */
  const AutoRegistryNames: seq<string> :=
    ["model_name", "RAM", "screen_size", "battery_health",
     "has_ethernet", "has_wifi", "has_optical_drive", "has_touchscreen"]

  /** The manual entries follow `MANUAL_FIELDS` and use valid type names. */
  lemma ManualSpecsConfigured()
    ensures |ManualSpecs| == |Config.ManualFieldNames|
    ensures forall i :: 0 <= i < |ManualSpecs| ==> ManualSpecs[i].name == Config.ManualFieldNames[i]
    ensures forall i :: 0 <= i < |ManualSpecs| ==> ManualSpecs[i].typeName in ValidManualTypes
    ensures forall i :: 0 <= i < |ManualSpecs| ==> ManualSpecs[i].name in Config.ApiNames
  {
  }

  /** The automatic entries are the `AUTO_FIELDS` with a parser, each with
      an API name; the presence fields default to `False`. */
  lemma AutoSpecsConfigured()
    ensures |AutoSpecs| == |AutoRegistryNames|
    ensures forall i :: 0 <= i < |AutoSpecs| ==> AutoSpecs[i].name == AutoRegistryNames[i]
    ensures forall i :: 0 <= i < |AutoSpecs| ==> AutoSpecs[i].name in Config.ApiNames
    ensures forall i :: 0 <= i < |AutoSpecs| ==>
              AutoSpecs[i].rule == PresenceRule ==> AutoSpecs[i].default == Some(Bool(false))
    ensures forall i :: 0 <= i < |AutoSpecs| ==> AutoSpecs[i].typeName != "multiselect"
  {
  }

  /** Every automatic field is listed in `AUTO_FIELDS` and has a command;
      `storage` is the one listed field without a parser. */
  lemma AutoRegistryNamesConfigured()
    ensures forall n :: n in AutoRegistryNames ==> n in Config.AutoFieldNames && n in Config.AutoCommands
    ensures "storage" in Config.AutoFieldNames && "storage" !in AutoRegistryNames
    ensures Text.NoDuplicates(AutoRegistryNames)
  {
  }

  /** The manual registry builds, in `MANUAL_FIELDS` order, every field
      carrying the API name configured for its name and the validator and
      default its entry gives; the first field is the identifier field. */
  lemma ManualRegistryBuilds()
    ensures ManualFields().Ok?
    ensures var fs := ManualFields().value;
            && |fs| == |ManualSpecs| == |Config.ManualFieldNames|
            && (forall i :: 0 <= i < |fs| ==> fs[i].core.name == Config.ManualFieldNames[i])
            && (forall i :: 0 <= i < |fs| ==>
                  fs[i].core.name in Config.ApiNames && fs[i].core.apiName == Config.ApiNames[fs[i].core.name])
            && (forall i :: 0 <= i < |fs| ==> fs[i].rule == ManualSpecs[i].rule)
            && (forall i :: 0 <= i < |fs| ==> fs[i].core.value == ManualSpecs[i].default)
            && (forall i :: 0 <= i < |fs| ==> fs[i].options == ManualSpecs[i].options)
            && fs[0].rule == CridRule && fs[0].kind == IdKind
            && fs[0].core.apiName == Config.CridApiName
  {
    ManualSpecsConfigured();
    var rs := BuildAllManual(ManualSpecs);
    assert forall i :: 0 <= i < |rs| ==> rs[i].Ok?;
    var fs := ManualFields().value;
    assert KindName(fs[0].kind) == "id";
    KindNameRoundTrip(fs[0].kind);
  }

  /** The automatic registry builds in the order model, RAM, screen,
      battery, ethernet, WiFi, optical drive, touchscreen; every field is
      configured with an API name and a command, none starts with an
      error, and the presence fields start at `False`. */
  lemma AutoRegistryBuilds()
    ensures AutoFields().Ok?
    ensures var fs := AutoFields().value;
            && |fs| == |AutoSpecs| == |AutoRegistryNames|
            && (forall i :: 0 <= i < |fs| ==> fs[i].core.name == AutoRegistryNames[i])
            && (forall i :: 0 <= i < |fs| ==>
                  fs[i].core.name in Config.ApiNames && fs[i].core.apiName == Config.ApiNames[fs[i].core.name])
            && (forall i :: 0 <= i < |fs| ==> fs[i].error.None?)
            && (forall i :: 0 <= i < |fs| ==> fs[i].rule == AutoSpecs[i].rule)
            && (forall i :: 0 <= i < |fs| ==> fs[i].rule == PresenceRule ==> fs[i].core.value == Some(Bool(false)))
            && (forall i :: 0 <= i < |fs| ==> fs[i].typeName != "multiselect")
  {
    AutoSpecsConfigured();
    var rs := BuildAllAuto(AutoSpecs);
    assert forall i :: 0 <= i < |rs| ==> rs[i].Ok?;
  }
}
