/** The command-line front end `src/cml.py`: manual entry driven by each
    field's type, automatic collection with its error report, and the
    review-and-upload step with its record conversion. The operator's
    answers, the command runner and the record store are parameters. */
module Cml {
  import opened Common
  import opened Text
  import opened Values
  import opened Fields
  import opened Prompts
  import opened Records
  import Config
  import Registry
  import MV = ManualValidators
  import AP = AutoParsers

  // ---------------------------------------------------------------------
  // Manual entry

  /** How `manual_input` prompts for a field of each type. */
  datatype Style = IdStyle | PlainStyle | YesNoStyle | SelectStyle | MultiselectStyle

  function UnexpectedTypeMsg(t: string): string {
    "Unexpected field type " + t
  }

  /** The `if/elif` chain on `field.type`; any other type raises. */
  function StyleOf(t: string): (r: Result<Style>)
    ensures r.Err? <==> t !in ValidManualTypes
    ensures r.Err? ==> r.msg == UnexpectedTypeMsg(t)
    ensures r == Ok(IdStyle) <==> t == "id"
    ensures r == Ok(PlainStyle) <==> t in ["text", "int", "number"]
    ensures r == Ok(YesNoStyle) <==> t == "bool"
    ensures r == Ok(SelectStyle) <==> t == "select"
    ensures r == Ok(MultiselectStyle) <==> t == "multiselect"
  {
    if t == "id" then Ok(IdStyle)
    else if t in ["text", "int", "number"] then Ok(PlainStyle)
    else if t == "bool" then Ok(YesNoStyle)
    else if t == "select" then Ok(SelectStyle)
    else if t == "multiselect" then Ok(MultiselectStyle)
    else Err(UnexpectedTypeMsg(t))
  }

  /** A field built by its constructor never reaches the `raise`. */
  lemma EveryKindHasAStyle(k: Kind)
    ensures StyleOf(KindName(k)).Ok?
  {
    KindNameRoundTrip(k);
  }

  /** A `validate` call inside `try ... except: print(e)`: success ends the
      loop, an exception asks again with its message. */
  function Retrying(r: Result<ManualField>): (s: Step<ManualField>)
    ensures r.Ok? <==> s.Done?
    ensures r.Ok? ==> s.v == r.value
    ensures r.Err? ==> s == Retry(r.msg)
  {
    match r
    case Ok(g) => Done(g)
    case Err(m) => Retry(m)
  }

  /** One answer to the identifier prompt. */
  function IdDecision(f: ManualField, lookup: MV.Lookup, ans: string): Step<ManualField> {
    Retrying(ValidateId(f, ans, lookup))
  }

  /** One answer to a text, number or yes/no prompt. */
  function PlainDecision(f: ManualField, ans: string): Step<ManualField> {
    Retrying(Validate(f, ans))
  }

  const ChoiceMsg: string := "Please enter a valid choice number, or ENTER to skip"

  /** One answer to a select prompt: empty skips, a position 1..n picks that
      option and validates it, anything else asks again. */
  function SelectDecision(f: ManualField, ans: string): (s: Step<ManualField>)
    ensures !s.Raise?
    ensures ans == "" ==> s == Done(f)
    ensures ans != "" && ParseInt(ans).None? ==> s == Retry(ChoiceMsg)
    ensures ans != "" && ParseInt(ans).Some? && !(1 <= ParseInt(ans).value <= |f.options|) ==>
              s == Retry(ChoiceMsg)
  {
    if ans == "" then Done(f)
    else match ParseInt(ans)
      case None => Retry(ChoiceMsg)
      case Some(k) =>
        if k <= 0 || k > |f.options| then Retry(ChoiceMsg)
        else Retrying(Validate(f, f.options[k - 1]))
  }

  /** Any answer that reads as a position `k` of the options (`3`, `+3`,
      `03`) stands for that option: the step is exactly what validating the
      option itself gives. */
  lemma SelectByPosition(f: ManualField, ans: string, k: int)
    requires ParseInt(ans) == Some(k) && 1 <= k <= |f.options|
    ensures SelectDecision(f, ans) == Retrying(Validate(f, f.options[k - 1]))
    ensures SelectDecision(f, ans).Done? <==> Validate(f, f.options[k - 1]).Ok?
  {
    assert ans != "" by { assert ParseInt("").None?; }
  }

  /** Typing the position `k` of an option picks that option: a select
      field with the option validator stores it. */
  lemma SelectPicksByPosition(f: ManualField, ans: string, k: int)
    requires f.rule == OptionRule && f.kind == SelectKind
    requires ParseInt(ans) == Some(k) && 1 <= k <= |f.options| && f.options[k - 1] != ""
    ensures SelectDecision(f, ans).Done?
    ensures SelectDecision(f, ans).v.core.value == Some(Str(f.options[k - 1]))
    ensures SameManualField(f, SelectDecision(f, ans).v)
  {
    SelectByPosition(f, ans, k);
  }

  /** In particular the plain numeral of the position picks the option. */
  lemma SelectPicksByNumeral(f: ManualField, k: int)
    requires f.rule == OptionRule && f.kind == SelectKind
    requires 1 <= k <= |f.options| && f.options[k - 1] != ""
    ensures SelectDecision(f, IntToString(k)).Done?
    ensures SelectDecision(f, IntToString(k)).v.core.value == Some(Str(f.options[k - 1]))
  {
    ParseIntToString(k);
    SelectPicksByPosition(f, IntToString(k), k);
  }

  const YesNoRetryMsg: string := "Please provide a valid option [y/n], or ENTER to skip"

  /** One answer about one option of a multi-select field: "y" validates the
      option (an exception escapes the whole entry), "n" or empty moves on,
      anything else asks about the same option again. */
  function OptionDecision(f: ManualField, option: string, ans: string): (s: Step<ManualField>)
    ensures (ans == "n" || ans == "") ==> s == Done(f)
    ensures ans == "y" && Validate(f, option).Ok? ==> s == Done(Validate(f, option).value)
    ensures ans == "y" && Validate(f, option).Err? ==> s == Raise(Validate(f, option).msg)
    ensures ans != "y" && ans != "n" && ans != "" ==> s.Retry?
  {
    if ans == "y" then
      match Validate(f, option)
      case Ok(g) => Done(g)
      case Err(m) => Raise(m)
    else if ans == "n" || ans == "" then Done(f)
    else Retry(YesNoRetryMsg)
  }

  /** The prompt loop about one option. */
  function OptionPrompt(f: ManualField, option: string, inputs: seq<string>): (r: Prompted<ManualField>)
    ensures r.Answered? ==> SameManualField(f, r.v) && |r.rest| < |inputs| && IsSuffix(r.rest, inputs)
  {
    var decide := (ans: string) => OptionDecision(f, option, ans);
    PromptPreserves(decide, inputs, (g: ManualField) => SameManualField(f, g));
    Prompt(decide, inputs)
  }

  /** The `for option in field.options` loop: one prompt loop per option, in
      order, each starting where the previous one stopped reading. */
  function MultiselectIntake(f: ManualField, opts: seq<string>, inputs: seq<string>): (r: Prompted<ManualField>)
    ensures r.Answered? ==> SameManualField(f, r.v) && IsSuffix(r.rest, inputs)
    decreases |opts|
  {
    if opts == [] then Answered(f, inputs)
    else
      match OptionPrompt(f, opts[0], inputs)
      case Raised(m) => Raised(m)
      case Exhausted => Exhausted
      case Answered(g, rest) =>
        var r := MultiselectIntake(g, opts[1..], rest);
        if r.Answered? then SuffixOfSuffix(inputs, rest, r.rest); r else r
  }

  /** The loop about one option either leaves a multi-select list as it
      was or appends that option. */
  lemma OneOptionEffect(f: ManualField, option: string, inputs: seq<string>) returns (took: bool)
    requires f.kind == MultiselectKind && f.rule == OptionRule
    requires f.core.value.Some? && f.core.value.value.List?
    requires OptionPrompt(f, option, inputs).Answered?
    ensures OptionPrompt(f, option, inputs).v.core.value
            == Some(List(f.core.value.value.items + (if took then [option] else [])))
  {
    var decide := (ans: string) => OptionDecision(f, option, ans);
    var g := OptionPrompt(f, option, inputs).v;
    PromptAnswerWasDecided(decide, inputs);
    var j :| 0 <= j < |inputs| && decide(inputs[j]) == Done(g);
    took := inputs[j] == "y" && MV.ValidateOption(option, f.options).Accept?;
    if !took {
      assert g == f;
      assert f.core.value.value.items + [] == f.core.value.value.items;
    }
  }

  /** Starting from the list `pre`, multi-select entry ends with `pre`
      followed by some of the offered options, in the order offered. */
  lemma {:induction false} MultiselectPicks(f: ManualField, opts: seq<string>, inputs: seq<string>)
    returns (picked: seq<string>)
    requires f.kind == MultiselectKind && f.rule == OptionRule
    requires f.core.value.Some? && f.core.value.value.List?
    requires MultiselectIntake(f, opts, inputs).Answered?
    ensures MultiselectIntake(f, opts, inputs).v.core.value == Some(List(f.core.value.value.items + picked))
    ensures IsSubseq(picked, opts)
    decreases |opts|
  {
    var pre := f.core.value.value.items;
    if opts == [] {
      picked := [];
      assert pre + [] == pre;
    } else {
      var p := OptionPrompt(f, opts[0], inputs);
      var took := OneOptionEffect(f, opts[0], inputs);
      assert MultiselectIntake(f, opts, inputs) == MultiselectIntake(p.v, opts[1..], p.rest);
      var later := MultiselectPicks(p.v, opts[1..], p.rest);
      SubseqStep(pre, opts, took, later);
      picked := if took then [opts[0]] + later else later;
    }
  }

  /** Entry for the multi-select field from its empty default offers each
      port once, in order, so the ports recorded are a repetition-free
      subsequence of the port options. */
  lemma MultiselectFromEmpty(f: ManualField, inputs: seq<string>)
    requires f.kind == MultiselectKind && f.rule == OptionRule && f.core.value == Some(List([]))
    requires NoDuplicates(f.options)
    requires MultiselectIntake(f, f.options, inputs).Answered?
    ensures var v := MultiselectIntake(f, f.options, inputs).v.core.value;
            v.Some? && v.value.List? && IsSubseq(v.value.items, f.options) && NoDuplicates(v.value.items)
  {
    var picked := MultiselectPicks(f, f.options, inputs);
    assert [] + picked == picked;
    SubseqNoDuplicates(picked, f.options);
  }

  /** One field's entry in `manual_input`, dispatched on its type. */
  function IntakeField(f: ManualField, inputs: seq<string>, lookup: MV.Lookup): (r: Prompted<ManualField>)
    ensures r.Answered? ==> SameManualField(f, r.v) && IsSuffix(r.rest, inputs)
  {
    match StyleOf(KindName(f.kind))
    case Err(m) => Raised(m)
    case Ok(IdStyle) =>
      var decide := (ans: string) => IdDecision(f, lookup, ans);
      PromptPreserves(decide, inputs, (g: ManualField) => SameManualField(f, g));
      Prompt(decide, inputs)
    case Ok(PlainStyle) => PlainPrompt(f, inputs)
    case Ok(YesNoStyle) => PlainPrompt(f, inputs)
    case Ok(SelectStyle) =>
      var decide := (ans: string) => SelectDecision(f, ans);
      PromptPreserves(decide, inputs, (g: ManualField) => SameManualField(f, g));
      Prompt(decide, inputs)
    case Ok(MultiselectStyle) => MultiselectIntake(f, f.options, inputs)
  }

  function PlainPrompt(f: ManualField, inputs: seq<string>): (r: Prompted<ManualField>)
    ensures r.Answered? ==> SameManualField(f, r.v) && |r.rest| < |inputs| && IsSuffix(r.rest, inputs)
  {
    var decide := (ans: string) => PlainDecision(f, ans);
    PromptPreserves(decide, inputs, (g: ManualField) => SameManualField(f, g));
    Prompt(decide, inputs)
  }

  /** `manual_input`: the fields in registry order, each prompt reading
      where the previous one stopped. */
  function ManualInput(fs: seq<ManualField>, inputs: seq<string>, lookup: MV.Lookup): (r: Prompted<seq<ManualField>>)
    ensures r.Answered? ==> |r.v| == |fs| && forall i :: 0 <= i < |fs| ==> SameManualField(fs[i], r.v[i])
    ensures r.Answered? ==> IsSuffix(r.rest, inputs)
    decreases |fs|
  {
    if fs == [] then Answered([], inputs)
    else
      match IntakeField(fs[0], inputs, lookup)
      case Raised(m) => Raised(m)
      case Exhausted => Exhausted
      case Answered(g, rest) =>
        match ManualInput(fs[1..], rest, lookup)
        case Raised(m) => Raised(m)
        case Exhausted => Exhausted
        case Answered(gs, rest') => SuffixOfSuffix(inputs, rest, rest'); Answered([g] + gs, rest')
  }

  /** The identifier prompt only lets through an identifier the store
      knows, and stores it as typed. */
  lemma IdIntakeKnowsRecord(f: ManualField, inputs: seq<string>, lookup: MV.Lookup)
    requires f.kind == IdKind && f.rule == CridRule
    requires IntakeField(f, inputs, lookup).Answered?
    ensures var v := IntakeField(f, inputs, lookup).v.core.value;
            v.Some? && v.value.Str? && v.value.s != "" && lookup(Config.CridApiName, v.value.s).Some?
  {
    var decide := (ans: string) => IdDecision(f, lookup, ans);
    var P := (g: ManualField) => g.core.value.Some? && g.core.value.value.Str? && g.core.value.value.s != ""
                                 && lookup(Config.CridApiName, g.core.value.value.s).Some?;
    PromptPreserves(decide, inputs, P);
  }

  // ---------------------------------------------------------------------
  // Automatic collection


  /** The `KeyError` a field without a configured pipeline raises. */
  function MissingCommandMsg(name: string): string {
    "KeyError: '" + name + "'"
  }

  /** The pipeline a field runs: its stages joined by " | ". */
  function CommandLine(name: string): string
    requires name in Config.AutoCommands
  {
    Join(" | ", Config.AutoCommands[name])
  }

  /** The first loop of `auto_collection`: every field runs its pipeline and
      parses the output; a field with no pipeline aborts the loop. */
  function AutoCollection(fs: seq<AutoField>, exec: Exec, format: AP.NumberFormat): (r: Result<seq<AutoField>>)
    ensures r.Ok? <==> forall i :: 0 <= i < |fs| ==> fs[i].core.name in Config.AutoCommands
    ensures r.Ok? ==> |r.value| == |fs|
    ensures r.Ok? ==> forall i :: 0 <= i < |fs| ==>
              r.value[i] == RunAndValidate(fs[i], exec(CommandLine(fs[i].core.name)), format)
    decreases |fs|
  {
    if fs == [] then Ok([])
    else if fs[0].core.name !in Config.AutoCommands then Err(MissingCommandMsg(fs[0].core.name))
    else
      match AutoCollection(fs[1..], exec, format)
      case Err(m) => Err(m)
      case Ok(gs) => Ok([RunAndValidate(fs[0], exec(CommandLine(fs[0].core.name)), format)] + gs)
  }

  /** `if field.error:` -- set and non-empty. */
  predicate HasError(f: AutoField) {
    f.error.Some? && f.error.value != ""
  }

  /** The positions the error report lists. */
  function ErrorPositions(fs: seq<AutoField>): (ps: seq<nat>)
    ensures forall k :: 0 <= k < |ps| ==> ps[k] < |fs| && HasError(fs[ps[k]])
    ensures forall k, l :: 0 <= k < l < |ps| ==> ps[k] < ps[l]
    ensures forall i :: 0 <= i < |fs| && HasError(fs[i]) ==> i in ps
    decreases |fs|
  {
    if fs == [] then []
    else
      var n := |fs| - 1;
      var prev := ErrorPositions(fs[..n]);
      assert forall i :: 0 <= i < n ==> fs[..n][i] == fs[i];
      if HasError(fs[n]) then prev + [n] else prev
  }

  /** The second loop of `auto_collection`: one line per failed field,
      its display name and its error. */
  function ErrorReport(fs: seq<AutoField>): (lines: seq<(string, string)>)
    ensures |lines| == |ErrorPositions(fs)|
    ensures forall k :: 0 <= k < |lines| ==>
              lines[k] == (fs[ErrorPositions(fs)[k]].core.display, fs[ErrorPositions(fs)[k]].error.value)
  {
    var ps := ErrorPositions(fs);
    seq(|ps|, k requires 0 <= k < |ps| => (fs[ps[k]].core.display, fs[ps[k]].error.value))
  }

  /** After collection from fields that start without an error, the report
      lists exactly the fields that recorded one, in registry order. */
  lemma CollectedErrorsAreReported(fs: seq<AutoField>, exec: Exec, format: AP.NumberFormat)
    requires forall i :: 0 <= i < |fs| ==> fs[i].error.None? && fs[i].core.name in Config.AutoCommands
    ensures var gs := AutoCollection(fs, exec, format).value;
            forall i :: 0 <= i < |gs| ==> (i in ErrorPositions(gs) <==> gs[i].error.Some?)
  {
    var gs := AutoCollection(fs, exec, format).value;
    forall i | 0 <= i < |gs| ensures i in ErrorPositions(gs) <==> gs[i].error.Some? {
      assert gs[i] == RunAndValidate(fs[i], exec(CommandLine(fs[i].core.name)), format);
      var ps := ErrorPositions(gs);
      if i in ps {
        var k :| 0 <= k < |ps| && ps[k] == i;
      }
    }
  }

  /** A presence field ends `True` exactly when its pipeline succeeded, and
      records an error exactly when it failed. */
  lemma PresenceFollowsCommand(fs: seq<AutoField>, exec: Exec, format: AP.NumberFormat, i: nat)
    requires i < |fs| && fs[i].rule == PresenceRule && fs[i].error.None?
    requires fs[i].core.value == Some(Bool(false))
    requires AutoCollection(fs, exec, format).Ok?
    ensures var g := AutoCollection(fs, exec, format).value[i];
            var ran := exec(CommandLine(fs[i].core.name));
            && (g.core.value == Some(Bool(true)) <==> ran.Success?)
            && (g.error.Some? <==> ran.Failure?)
  {
    var ran := exec(CommandLine(fs[i].core.name));
    assert AutoCollection(fs, exec, format).value[i] == RunAndValidate(fs[i], ran, format);
    PresenceOutcome(fs[i], ran, format);
  }

  // ---------------------------------------------------------------------
  // Record conversion

  /** The value a field sends: a multi-select list goes as its options
      joined by ";" and only when non-empty; any other value as it is. */
  function WireValue(multiselect: bool, v: Option<Value>): (w: Option<Value>)
    ensures !multiselect ==> w == v
    ensures multiselect ==> (w.Some? <==> v.Some? && v.value.List? && v.value.items != [])
    ensures w.Some? ==> v.Some?
  {
    if !multiselect then v
    else match v
      case Some(List(xs)) => if xs != [] then Some(Str(Join(";", xs))) else None
      case _ => None
  }

  /** A non-empty selection of options without ";" is recovered from the
      value sent by splitting it on ";". */
  lemma PicklistRoundTrip(xs: seq<string>)
    requires xs != [] && forall k :: 0 <= k < |xs| ==> ';' !in xs[k]
    ensures WireValue(true, Some(List(xs))).Some?
    ensures WireValue(true, Some(List(xs))).value.Str?
    ensures Split(WireValue(true, Some(List(xs))).value.s, ';') == xs
  {
    SplitJoin(xs, ';');
  }

  /** Two selected ports go as one ";"-joined string; no port sends nothing. */
  lemma VideoPortsExample()
    ensures WireValue(true, Some(List(["VGA", "HDMI"]))) == Some(Str("VGA;HDMI"))
    ensures WireValue(true, Some(List([]))) == None
  {
    var ports := ["VGA", "HDMI"];
    assert ports[1..] == ["HDMI"];
    assert Join(";", ports) == "VGA" + ";" + "HDMI";
    assert "VGA" + ";" + "HDMI" == "VGA;HDMI";
  }

  function ManualPair(f: ManualField): (string, Option<Value>) {
    (f.core.apiName, WireValue(f.kind == MultiselectKind, f.core.value))
  }

  function AutoPair(f: AutoField): (string, Option<Value>) {
    (f.core.apiName, WireValue(f.typeName == "multiselect", f.core.value))
  }

  /** Every field's API name and converted value, manual fields first. */
  function Pairs(manual: seq<ManualField>, auto: seq<AutoField>): (ps: seq<(string, Option<Value>)>)
    ensures |ps| == |manual| + |auto|
    ensures forall i :: 0 <= i < |manual| ==> ps[i] == ManualPair(manual[i])
    ensures forall i :: 0 <= i < |auto| ==> ps[|manual| + i] == AutoPair(auto[i])
  {
    seq(|manual|, i requires 0 <= i < |manual| => ManualPair(manual[i]))
    + seq(|auto|, i requires 0 <= i < |auto| => AutoPair(auto[i]))
  }

  /** The record built in `review_and_upload`. */
  function ToRecord(manual: seq<ManualField>, auto: seq<AutoField>): Record {
    Collect(Pairs(manual, auto))
  }

  /** The field sends a value under key `k`. */
  predicate ManualSends(f: ManualField, k: string) {
    f.core.apiName == k && WireValue(f.kind == MultiselectKind, f.core.value).Some?
  }

  predicate AutoSends(f: AutoField, k: string) {
    f.core.apiName == k && WireValue(f.typeName == "multiselect", f.core.value).Some?
  }

  /** The record's keys are exactly the API names of the fields whose
      converted value is set. */
  lemma RecordKeys(manual: seq<ManualField>, auto: seq<AutoField>, k: string)
    ensures k in Keys(ToRecord(manual, auto)) <==>
              (exists i :: 0 <= i < |manual| && ManualSends(manual[i], k))
              || (exists i :: 0 <= i < |auto| && AutoSends(auto[i], k))
  {
    var ps := Pairs(manual, auto);
    CollectKeys(ps);
    if Assigns(ps, k) {
      var j :| 0 <= j < |ps| && ps[j].0 == k && ps[j].1.Some?;
      if j >= |manual| {
        assert ps[|manual| + (j - |manual|)] == AutoPair(auto[j - |manual|]);
      }
    }
    if exists i :: 0 <= i < |manual| && ManualSends(manual[i], k) {
      var i :| 0 <= i < |manual| && ManualSends(manual[i], k);
      assert ps[i] == ManualPair(manual[i]);
    }
    if exists i :: 0 <= i < |auto| && AutoSends(auto[i], k) {
      var i :| 0 <= i < |auto| && AutoSends(auto[i], k);
      assert ps[|manual| + i] == AutoPair(auto[i]);
    }
  }

  /** With distinct API names every field's key holds exactly its
      converted value: an unset field or an empty selection has no key. */
  lemma RecordValues(manual: seq<ManualField>, auto: seq<AutoField>)
    requires DistinctKeys(Pairs(manual, auto))
    ensures forall i :: 0 <= i < |manual| ==>
              Get(ToRecord(manual, auto), manual[i].core.apiName)
              == WireValue(manual[i].kind == MultiselectKind, manual[i].core.value)
    ensures forall i :: 0 <= i < |auto| ==>
              Get(ToRecord(manual, auto), auto[i].core.apiName)
              == WireValue(auto[i].typeName == "multiselect", auto[i].core.value)
  {
    var ps := Pairs(manual, auto);
    forall i | 0 <= i < |manual|
      ensures Get(ToRecord(manual, auto), manual[i].core.apiName)
              == WireValue(manual[i].kind == MultiselectKind, manual[i].core.value)
    {
      CollectGet(ps, i);
    }
    forall i | 0 <= i < |auto|
      ensures Get(ToRecord(manual, auto), auto[i].core.apiName)
              == WireValue(auto[i].typeName == "multiselect", auto[i].core.value)
    {
      CollectGet(ps, |manual| + i);
    }
  }

  /** Fields with distinct configured names have distinct API names, so
      the record never merges two of them. */
  lemma ConfiguredFieldsHaveDistinctKeys(manual: seq<ManualField>, auto: seq<AutoField>)
    requires forall i :: 0 <= i < |manual| ==>
               manual[i].core.name in Config.ApiNames && manual[i].core.apiName == Config.ApiNames[manual[i].core.name]
    requires forall i :: 0 <= i < |auto| ==>
               auto[i].core.name in Config.ApiNames && auto[i].core.apiName == Config.ApiNames[auto[i].core.name]
    requires forall a, b :: 0 <= a < b < |manual| ==> manual[a].core.name != manual[b].core.name
    requires forall a, b :: 0 <= a < b < |auto| ==> auto[a].core.name != auto[b].core.name
    requires forall a, b :: 0 <= a < |manual| && 0 <= b < |auto| ==> manual[a].core.name != auto[b].core.name
    ensures DistinctKeys(Pairs(manual, auto))
  {
    Config.ApiNamesInjective();
    var ps := Pairs(manual, auto);
    forall a, b | 0 <= a < b < |ps| ensures ps[a].0 != ps[b].0 {
      if b < |manual| {
        assert ps[a] == ManualPair(manual[a]) && ps[b] == ManualPair(manual[b]);
      } else if a >= |manual| {
        assert ps[a] == AutoPair(auto[a - |manual|]) && ps[b] == AutoPair(auto[b - |manual|]);
      } else {
        assert ps[a] == ManualPair(manual[a]) && ps[b] == AutoPair(auto[b - |manual|]);
      }
    }
  }

  // ---------------------------------------------------------------------
  // Review and upload

  /** The review listing: every field whose value is set. */
  function ReviewShown(manual: seq<ManualField>, auto: seq<AutoField>): (shown: seq<FieldCore>)
    ensures forall c :: c in shown <==>
              (exists i :: 0 <= i < |manual| && manual[i].core == c && c.value.Some?)
              || (exists i :: 0 <= i < |auto| && auto[i].core == c && c.value.Some?)
  {
    var cores := seq(|manual|, i requires 0 <= i < |manual| => manual[i].core)
                 + seq(|auto|, i requires 0 <= i < |auto| => auto[i].core);
    var shown := SetOnly(cores);
    assert forall c :: c in cores <==>
             (exists i :: 0 <= i < |manual| && manual[i].core == c)
             || (exists i :: 0 <= i < |auto| && auto[i].core == c) by {
      forall c | c in cores
        ensures (exists i :: 0 <= i < |manual| && manual[i].core == c)
                || (exists i :: 0 <= i < |auto| && auto[i].core == c)
      {
        var j :| 0 <= j < |cores| && cores[j] == c;
        if j < |manual| { assert manual[j].core == c; }
        else { assert auto[j - |manual|].core == c; }
      }
      forall i | 0 <= i < |manual| ensures manual[i].core in cores {
        assert cores[i] == manual[i].core;
      }
      forall i | 0 <= i < |auto| ensures auto[i].core in cores {
        assert cores[|manual| + i] == auto[i].core;
      }
    }
    shown
  }

  /** The cores whose value is set, in order. */
  function SetOnly(cores: seq<FieldCore>): (r: seq<FieldCore>)
    ensures forall c :: c in r <==> c in cores && c.value.Some?
    decreases |cores|
  {
    if cores == [] then []
    else (if cores[0].value.Some? then [cores[0]] else []) + SetOnly(cores[1..])
  }

  /** "Fields not shown below will be empty": every key of the record
      belongs to a field the review listed. */
  lemma RecordOnlyHoldsShownFields(manual: seq<ManualField>, auto: seq<AutoField>, k: string)
    requires k in Keys(ToRecord(manual, auto))
    ensures exists c :: c in ReviewShown(manual, auto) && c.apiName == k
  {
    RecordKeys(manual, auto, k);
    if exists i :: 0 <= i < |manual| && ManualSends(manual[i], k) {
      var i :| 0 <= i < |manual| && ManualSends(manual[i], k);
      assert manual[i].core in ReviewShown(manual, auto);
    } else {
      var i :| 0 <= i < |auto| && AutoSends(auto[i], k);
      assert auto[i].core in ReviewShown(manual, auto);
    }
  }

  /** The `try` block after "y": the identifier is read from the first manual
      field and looked up again, then the record is written; any failure
      on the way is reported and nothing is retried. */
  function Attempt(manual: seq<ManualField>, record: Record, lookup: MV.Lookup, update: Update): (o: UploadOutcome)
    ensures o.Uploaded? || o.UploadFailed?
    ensures o.record == record
    ensures o.Uploaded? <==>
              && manual != [] && manual[0].core.value.Some? && manual[0].core.value.value.Str?
              && lookup(Config.CridApiName, manual[0].core.value.value.s).Some?
              && update(lookup(Config.CridApiName, manual[0].core.value.value.s).value, record)
    ensures o.Uploaded? ==> o.eid == lookup(Config.CridApiName, manual[0].core.value.value.s).value
    ensures o.Uploaded? ==> o.shown == ShownEntries(record, Config.CridApiName)
  {
    if manual == [] then UploadFailed(record)
    else match manual[0].core.value
      case Some(Str(crid)) =>
        (match lookup(Config.CridApiName, crid)
         case Some(eid) =>
           if update(eid, record) then Uploaded(eid, record, ShownEntries(record, Config.CridApiName))
           else UploadFailed(record)
         case None => UploadFailed(record))
      case _ => UploadFailed(record)
  }

  /** `review_and_upload` after the listing: ask until "y" or "n". */
  function ReviewAndUpload(manual: seq<ManualField>, auto: seq<AutoField>, inputs: seq<string>,
                           lookup: MV.Lookup, update: Update): UploadOutcome
  {
    match Prompt(ConfirmStep, inputs)
    case Answered(true, _) => Attempt(manual, ToRecord(manual, auto), lookup, update)
    case Answered(false, _) => Declined
    case _ => Undecided
  }

  /** The first "y" or "n" (either case) decides: "y" makes exactly one
      upload attempt with the converted record, "n" uploads nothing, and
      without either answer nothing happens. */
  lemma ConfirmDecides(manual: seq<ManualField>, auto: seq<AutoField>, inputs: seq<string>,
                       lookup: MV.Lookup, update: Update, k: nat)
    requires k < |inputs| && RetriesBefore(ConfirmStep, inputs, k)
    ensures inputs[k] in ["y", "Y"] ==>
              var o := ReviewAndUpload(manual, auto, inputs, lookup, update);
              (o.Uploaded? || o.UploadFailed?) && o.record == ToRecord(manual, auto)
    ensures inputs[k] in ["n", "N"] ==> ReviewAndUpload(manual, auto, inputs, lookup, update) == Declined
  {
    if inputs[k] in ["y", "Y", "n", "N"] {
      PromptStopsAtFirstDecision(ConfirmStep, inputs, k);
    }
  }

  /** Nothing is uploaded unless some answer is "y" or "n". */
  lemma UndecidedWithoutAnswer(manual: seq<ManualField>, auto: seq<AutoField>, inputs: seq<string>,
                               lookup: MV.Lookup, update: Update)
    ensures ReviewAndUpload(manual, auto, inputs, lookup, update).Undecided?
            <==> forall j :: 0 <= j < |inputs| ==> inputs[j] !in ["y", "Y", "n", "N"]
  {
    PromptExhaustedIffAllRetry(ConfirmStep, inputs);
    var r := Prompt(ConfirmStep, inputs);
    assert !r.Raised? by {
      PromptPreserves(ConfirmStep, inputs, (b: bool) => true);
      if r.Raised? { RaisedNever(inputs); }
    }
    assert RetriesBefore(ConfirmStep, inputs, |inputs|)
           <==> forall j :: 0 <= j < |inputs| ==> inputs[j] !in ["y", "Y", "n", "N"];
  }

  /** The confirmation loop never raises. */
  lemma {:induction false} RaisedNever(inputs: seq<string>)
    ensures !Prompt(ConfirmStep, inputs).Raised?
    decreases |inputs|
  {
    if inputs != [] {
      RaisedNever(inputs[1..]);
    }
  }

  // ---------------------------------------------------------------------
  // A whole run

  /** How a run of the three sections ends. */
  datatype Session =
    | Finished(manual: seq<ManualField>, auto: seq<AutoField>, report: seq<(string, string)>, outcome: UploadOutcome)
    | Aborted(msg: string)
    | Stalled

  /** `manual_input`, `auto_collection` and `review_and_upload` in turn on
      the given field lists, the answers read in one stream. */
  function Run(manual: seq<ManualField>, auto: seq<AutoField>, inputs: seq<string>,
               lookup: MV.Lookup, exec: Exec, format: AP.NumberFormat, update: Update): (s: Session)
    ensures s.Finished? ==> |s.manual| == |manual| && |s.auto| == |auto|
    ensures s.Finished? ==> forall i :: 0 <= i < |manual| ==> SameManualField(manual[i], s.manual[i])
    ensures s.Finished? ==> forall i :: 0 <= i < |auto| ==> SameAutoField(auto[i], s.auto[i])
    ensures s.Finished? ==> s.report == ErrorReport(s.auto)
  {
    match ManualInput(manual, inputs, lookup)
    case Raised(m) => Aborted(m)
    case Exhausted => Stalled
    case Answered(ms, rest) =>
      match AutoCollection(auto, exec, format)
      case Err(m) => Aborted(m)
      case Ok(collected) =>
        Finished(ms, collected, ErrorReport(collected), ReviewAndUpload(ms, collected, rest, lookup, update))
  }

  /** Fields carrying the configured names, in registry order, send each
      field's converted value under that field's own API name. */
  lemma RegistryRecordIsFaithful(ms: seq<ManualField>, collected: seq<AutoField>)
    requires |ms| == |Config.ManualFieldNames| && |collected| == |Registry.AutoRegistryNames|
    requires forall i :: 0 <= i < |ms| ==> ms[i].core.name == Config.ManualFieldNames[i]
    requires forall i :: 0 <= i < |collected| ==> collected[i].core.name == Registry.AutoRegistryNames[i]
    requires forall i :: 0 <= i < |ms| ==>
               ms[i].core.name in Config.ApiNames && ms[i].core.apiName == Config.ApiNames[ms[i].core.name]
    requires forall i :: 0 <= i < |collected| ==>
               collected[i].core.name in Config.ApiNames
               && collected[i].core.apiName == Config.ApiNames[collected[i].core.name]
    requires forall i :: 0 <= i < |collected| ==> collected[i].typeName != "multiselect"
    ensures forall i :: 0 <= i < |ms| ==>
              Get(ToRecord(ms, collected), ms[i].core.apiName)
              == WireValue(ms[i].kind == MultiselectKind, ms[i].core.value)
    ensures forall i :: 0 <= i < |collected| ==>
              Get(ToRecord(ms, collected), collected[i].core.apiName) == collected[i].core.value
  {
    Registry.AutoRegistryNamesConfigured();
    Config.FieldListsDistinct();
    Config.FieldListsPartitionApiNames();
    forall a, b | 0 <= a < |ms| && 0 <= b < |collected| ensures ms[a].core.name != collected[b].core.name {
      assert Config.ManualFieldNames[a] in Config.ManualFieldNames;
      assert Registry.AutoRegistryNames[b] in Registry.AutoRegistryNames;
    }
    ConfiguredFieldsHaveDistinctKeys(ms, collected);
    RecordValues(ms, collected);
  }

  /** A finished run on the registry sends, under each field's own API
      name, exactly that field's converted value: nothing is merged or lost. */
  lemma RunRecordIsFaithful(manual: seq<ManualField>, auto: seq<AutoField>, inputs: seq<string>,
                            lookup: MV.Lookup, exec: Exec, format: AP.NumberFormat, update: Update)
    requires Registry.ManualFields() == Ok(manual) && Registry.AutoFields() == Ok(auto)
    requires Run(manual, auto, inputs, lookup, exec, format, update).Finished?
    ensures var s := Run(manual, auto, inputs, lookup, exec, format, update);
            && (forall i :: 0 <= i < |s.manual| ==>
                  Get(ToRecord(s.manual, s.auto), s.manual[i].core.apiName)
                  == WireValue(s.manual[i].kind == MultiselectKind, s.manual[i].core.value))
            && (forall i :: 0 <= i < |s.auto| ==>
                  Get(ToRecord(s.manual, s.auto), s.auto[i].core.apiName) == s.auto[i].core.value)
  {
    var s := Run(manual, auto, inputs, lookup, exec, format, update);
    RegistryFieldsFaithful(manual, auto, s.manual, s.auto);
  }

  /** Fields that differ from the registry's at most in their values send
      each value under their own API name. */
  lemma RegistryFieldsFaithful(manual: seq<ManualField>, auto: seq<AutoField>,
                               ms: seq<ManualField>, collected: seq<AutoField>)
    requires Registry.ManualFields() == Ok(manual) && Registry.AutoFields() == Ok(auto)
    requires |ms| == |manual| && forall i :: 0 <= i < |manual| ==> SameManualField(manual[i], ms[i])
    requires |collected| == |auto| && forall i :: 0 <= i < |auto| ==> SameAutoField(auto[i], collected[i])
    ensures forall i :: 0 <= i < |ms| ==>
              Get(ToRecord(ms, collected), ms[i].core.apiName)
              == WireValue(ms[i].kind == MultiselectKind, ms[i].core.value)
    ensures forall i :: 0 <= i < |collected| ==>
              Get(ToRecord(ms, collected), collected[i].core.apiName) == collected[i].core.value
  {
    Registry.ManualRegistryBuilds();
    Registry.AutoRegistryBuilds();
    RegistryRecordIsFaithful(ms, collected);
  }
}
