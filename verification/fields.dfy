/** The field state machine of `src/fields/field.py`: a `Field` base with a
    name, a display label, the API name taken from the configuration map and
    a current value; a `ManualField` that validates operator input; and an
    `AutoField` that validates the output of its command and records what
    went wrong instead of raising. Objects become immutable records and each
    mutating method returns the updated record. */
module Fields {
  import opened Common
  import opened Text
  import opened Values
  import Config
  import MV = ManualValidators
  import AP = AutoParsers

  const MissingApiNameMsg: string := "To add a new field, please add its API name to config file first."

  /** The state every field shares. `value == None` is Python's `None`:
      unset, and distinct from `False`, `0` or `""`. */
  datatype FieldCore = FieldCore(name: string, display: string, apiName: string, value: Option<Value>)

  /** `Field.__init__`: the name must be a key of the API-name map. */
  function NewField(name: string, display: string, default: Option<Value>): (r: Result<FieldCore>)
    ensures r.Err? <==> name !in Config.ApiNames
    ensures r.Err? ==> r.msg == MissingApiNameMsg
    ensures r.Ok? ==> r.value.name == name && r.value.display == display
    ensures r.Ok? ==> r.value.apiName == Config.ApiNames[name] && r.value.value == default
  {
    if name !in Config.ApiNames then Err(MissingApiNameMsg)
    else Ok(FieldCore(name, display, Config.ApiNames[name], default))
  }

  // ---------------------------------------------------------------------
  // ManualField

  datatype Kind = IdKind | TextKind | IntKind | NumberKind | BoolKind | SelectKind | MultiselectKind

  /** `VALID_MANUAL_TYPES`. */
  const ValidManualTypes: seq<string> := ["id", "text", "int", "number", "bool", "select", "multiselect"]

  function KindName(k: Kind): string {
    match k
    case IdKind => "id"
    case TextKind => "text"
    case IntKind => "int"
    case NumberKind => "number"
    case BoolKind => "bool"
    case SelectKind => "select"
    case MultiselectKind => "multiselect"
  }

  /** Reads a type name; `None` for anything outside `VALID_MANUAL_TYPES`. */
  function ParseKind(t: string): (r: Option<Kind>)
    ensures r.Some? <==> t in ValidManualTypes
    ensures r.Some? ==> KindName(r.value) == t
  {
    if t == "id" then Some(IdKind)
    else if t == "text" then Some(TextKind)
    else if t == "int" then Some(IntKind)
    else if t == "number" then Some(NumberKind)
    else if t == "bool" then Some(BoolKind)
    else if t == "select" then Some(SelectKind)
    else if t == "multiselect" then Some(MultiselectKind)
    else None
  }

  /** Every kind's name reads back as that kind. */
  lemma KindNameRoundTrip(k: Kind)
    ensures ParseKind(KindName(k)) == Some(k)
  {
  }

  /** Which validator a manual field runs: the default one or one of the
      validators `manual.py` installs. */
  datatype ManualRule = DefaultRule | CridRule | WebcamRule | OptionRule | UsbRule

  datatype ManualField = ManualField(core: FieldCore, kind: Kind, rule: ManualRule, options: seq<string>)

  function InvalidTypeMsg(): string {
    "Invalid manual field type, must be one of " + ListRepr(ValidManualTypes)
  }

  /** `ManualField.__init__`: the type is checked first, then the name. */
  function NewManualField(name: string, display: string, typeName: string,
                          default: Option<Value>, options: seq<string>): (r: Result<ManualField>)
    ensures typeName !in ValidManualTypes ==> r == Err(InvalidTypeMsg())
    ensures typeName in ValidManualTypes ==> (r.Ok? <==> name in Config.ApiNames)
    ensures typeName in ValidManualTypes && name !in Config.ApiNames ==> r == Err(MissingApiNameMsg)
    ensures r.Ok? ==> KindName(r.value.kind) == typeName && r.value.rule == DefaultRule
    ensures r.Ok? ==> r.value.options == options && r.value.core.value == default
    ensures r.Ok? ==> r.value.core.name == name && r.value.core.apiName == Config.ApiNames[name]
  {
    match ParseKind(typeName)
    case None => Err(InvalidTypeMsg())
    case Some(k) =>
      match NewField(name, display, default)
      case Err(m) => Err(m)
      case Ok(core) => Ok(ManualField(core, k, DefaultRule, options))
  }

  /** Raised when a validator is called with the wrong number of arguments:
      `validate` passes only the input, `validate_id` passes the store too. */
  const ArityMsg: string := "validator called with the wrong number of arguments"

  /** Raised when a multi-select field's value cannot take another option. */
  const NotAListMsg: string := "multi-select value is not a list of options"

  /** `self.validate_fn(input_str)`. */
  function RunManualRule(f: ManualField, input: string): Verdict {
    match f.rule
    case DefaultRule => KeepNonEmpty(input)
    case CridRule => Reject(ArityMsg)
    case WebcamRule => MV.ValidateWebcam(input)
    case OptionRule => MV.ValidateOption(input, f.options)
    case UsbRule => MV.ValidateUsb(input)
  }

  /** `g` is `f` with at most its value changed. */
  predicate SameManualField(f: ManualField, g: ManualField) {
    && g.kind == f.kind && g.rule == f.rule && g.options == f.options
    && g.core.name == f.core.name && g.core.display == f.core.display
    && g.core.apiName == f.core.apiName
  }

  /** `ManualField.validate`. A rejection leaves the field as it was (the
      error is Python's exception); a skip leaves it unchanged; an accepted
      value replaces the old one, except that a multi-select field appends it
      to the end of its list and keeps every earlier entry. */
  function Validate(f: ManualField, input: string): (r: Result<ManualField>)
    ensures RunManualRule(f, input).Reject? ==> r == Err(RunManualRule(f, input).msg)
    ensures RunManualRule(f, input).Skip? ==> r == Ok(f)
    ensures r.Ok? ==> SameManualField(f, r.value)
    ensures RunManualRule(f, input).Accept? && f.kind != MultiselectKind ==>
              r.Ok? && r.value.core.value == Some(RunManualRule(f, input).v)
    ensures RunManualRule(f, input).Accept? && f.kind == MultiselectKind && r.Ok? ==>
              && f.core.value.Some? && f.core.value.value.List?
              && RunManualRule(f, input).v.Str?
              && var before := f.core.value.value.items;
                 r.value.core.value == Some(List(before + [RunManualRule(f, input).v.s]))
  {
    match RunManualRule(f, input)
    case Reject(m) => Err(m)
    case Skip => Ok(f)
    case Accept(v) =>
      if f.kind != MultiselectKind then Ok(f.(core := f.core.(value := Some(v))))
      else match (f.core.value, v)
        case (Some(List(xs)), Str(s)) => Ok(f.(core := f.core.(value := Some(List(xs + [s])))))
        case _ => Err(NotAListMsg)
  }

  /** A multi-select field keeps what it had: an accepted option lands at
      the end and every earlier entry stays in place; nothing removes
      repeated options at this level. */
  lemma MultiselectAppendKeepsEarlier(f: ManualField, input: string)
    requires f.kind == MultiselectKind && f.core.value.Some? && f.core.value.value.List?
    requires Validate(f, input).Ok?
    ensures var before := f.core.value.value.items;
            var after := Validate(f, input).value.core.value;
            after.Some? && after.value.List? && |after.value.items| >= |before|
            && after.value.items[..|before|] == before
            && (RunManualRule(f, input).Accept? ==> |after.value.items| == |before| + 1)
  {
    var before := f.core.value.value.items;
    if RunManualRule(f, input).Accept? {
      var s := RunManualRule(f, input).v.s;
      assert (before + [s])[..|before|] == before;
    }
  }

  /** `ManualField.validate_id`: the validator also gets the store, and its
      result is assigned as it is, even `None`. */
  function ValidateId(f: ManualField, input: string, lookup: MV.Lookup): (r: Result<ManualField>)
    ensures f.rule != CridRule ==> r == Err(ArityMsg)
    ensures f.rule == CridRule ==>
              (r.Ok? <==> input != "" && lookup(Config.CridApiName, input).Some?)
    ensures f.rule == CridRule && r.Ok? ==> r.value == f.(core := f.core.(value := Some(Str(input))))
    ensures f.rule == CridRule && input != "" && r.Err? ==> MV.Mentions(r.msg, input)
  {
    if f.rule != CridRule then Err(ArityMsg)
    else match MV.ValidateCrid(input, lookup)
      case Reject(m) => Err(m)
      case Skip => Ok(f.(core := f.core.(value := None)))
      case Accept(v) => Ok(f.(core := f.core.(value := Some(v))))
  }

  // ---------------------------------------------------------------------
  // AutoField

  /** Which parser an automatic field runs. */
  datatype AutoRule = AutoDefaultRule | ModelRule | RamRule | ScreenRule | BatteryRule | PresenceRule

  /** An automatic field; `error` starts unset and only ever receives a message. */
  datatype AutoField = AutoField(core: FieldCore, typeName: string, error: Option<string>,
                                 rule: AutoRule, options: seq<string>)

  /** `AutoField.__init__`: no type check, only the base's name check. */
  function NewAutoField(name: string, display: string, typeName: string,
                        default: Option<Value>, options: seq<string>): (r: Result<AutoField>)
    ensures r.Err? <==> name !in Config.ApiNames
    ensures r.Ok? ==> r.value.error == None && r.value.rule == AutoDefaultRule
    ensures r.Ok? ==> r.value.typeName == typeName && r.value.core.value == default
    ensures r.Ok? ==> r.value.core.name == name && r.value.core.apiName == Config.ApiNames[name]
  {
    match NewField(name, display, default)
    case Err(m) => Err(m)
    case Ok(core) => Ok(AutoField(core, typeName, None, AutoDefaultRule, options))
  }

  /** What running a command pipeline gives: its stdout on exit status 0,
      its captured output otherwise (`CalledProcessError.output`). */
  datatype CommandResult = Success(stdout: string) | Failure(output: string)

  /** Runs a shell pipeline (`subprocess.check_output(..., shell=True)`). */
  type Exec = string -> CommandResult

  const NoMatchErrorMsg: string :=
    "`grep` didn't find match (unexpected file or output format from linux commands)"
  const FormatErrorMsg: string :=
    "regex matching error (unexpected output format from linux commands)"

  /** `self.validate_fn(output)`. */
  function RunAutoRule(rule: AutoRule, stdout: string, format: AP.NumberFormat): Verdict {
    match rule
    case AutoDefaultRule => KeepNonEmpty(stdout)
    case ModelRule => AP.ParseModel(stdout)
    case RamRule => AP.ParseRam(stdout)
    case ScreenRule => AP.ParseScreen(stdout)
    case BatteryRule => AP.ParseBattery(stdout, format)
    case PresenceRule => AP.ParsePresence(stdout)
  }

  /** `g` is `f` with at most its value and error changed. */
  predicate SameAutoField(f: AutoField, g: AutoField) {
    && g.typeName == f.typeName && g.rule == f.rule && g.options == f.options
    && g.core.name == f.core.name && g.core.display == f.core.display
    && g.core.apiName == f.core.apiName
  }

  /** `AutoField.run_and_validate` for a given command result. It never
      fails: a failed command records its output (or a fixed message when
      there is none), an unparsable output records a fixed message, and in
      both cases the value stays as it was. An error once recorded is never
      cleared. */
  function RunAndValidate(f: AutoField, result: CommandResult, format: AP.NumberFormat): (g: AutoField)
    ensures SameAutoField(f, g)
    ensures result.Failure? ==> g.core.value == f.core.value
    ensures result.Failure? ==> g.error == Some(if result.output != "" then result.output else NoMatchErrorMsg)
    ensures result.Success? && RunAutoRule(f.rule, result.stdout, format).Reject? ==>
              g.core.value == f.core.value && g.error == Some(FormatErrorMsg)
    ensures result.Success? && RunAutoRule(f.rule, result.stdout, format).Skip? ==> g == f
    ensures result.Success? && RunAutoRule(f.rule, result.stdout, format).Accept? ==>
              g.core.value == Some(RunAutoRule(f.rule, result.stdout, format).v) && g.error == f.error
    ensures f.error.Some? ==> g.error.Some?
    ensures g.error.Some? && g.error.value == "" ==> g.error == f.error
  {
    match result
    case Failure(out) =>
      f.(error := Some(if out != "" then out else NoMatchErrorMsg))
    case Success(out) =>
      match RunAutoRule(f.rule, out, format)
      case Reject(_) => f.(error := Some(FormatErrorMsg))
      case Skip => f
      case Accept(v) => f.(core := f.core.(value := Some(v)))
  }

  /** Running again with the same command result changes nothing more. */
  lemma RunAndValidateIdempotent(f: AutoField, result: CommandResult, format: AP.NumberFormat)
    ensures RunAndValidate(RunAndValidate(f, result, format), result, format)
            == RunAndValidate(f, result, format)
  {
  }

  /** A presence field reads success as `True`; failure leaves its value
      alone and records an error. From the registry's start (`False`, no
      error) the value is `True` exactly on success and an error is
      recorded exactly on failure. */
  lemma PresenceOutcome(f: AutoField, result: CommandResult, format: AP.NumberFormat)
    requires f.rule == PresenceRule
    ensures result.Success? ==> RunAndValidate(f, result, format).core.value == Some(Bool(true))
    ensures result.Success? ==> RunAndValidate(f, result, format).error == f.error
    ensures result.Failure? ==> RunAndValidate(f, result, format).core.value == f.core.value
    ensures result.Failure? ==> RunAndValidate(f, result, format).error.Some?
    ensures f.core.value == Some(Bool(false)) && f.error.None? ==>
              && (RunAndValidate(f, result, format).core.value == Some(Bool(true)) <==> result.Success?)
              && (RunAndValidate(f, result, format).error.Some? <==> result.Failure?)
  {
  }
}
