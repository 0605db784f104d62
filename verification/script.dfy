/** The older single-file front end, `script.py`: its own constants, the
    prompts of `data_input`, the pipelines of `data_collection`, the record
    of `_convert_to_record` and the confirmation of `data_upload`. The
    attributes of `EquipmentInfo` are a map from attribute name to value;
    an attribute missing from the map is `None`. */
module Script {
  import opened Common
  import opened Text
  import opened Values
  import opened Prompts
  import opened Records
  import opened Fields
  import Config
  import MV = ManualValidators
  import AP = AutoParsers
  import Cml

  // ---------------------------------------------------------------------
  // Constants

  /** `ALL_FIELDS_API_NAMES` of the script, in the order the dict lists
      them: the configured names plus `serial_number`. */
  const FieldTable: seq<(string, string)> := [
    ("CRID", "Computer_Reach_ID__c"),
    ("has_webcam", "Webcam_present__c"),
    ("video_ports", "Video__c"),
    ("num_usb_ports", "USB__c"),
    ("adapter_watts", "Adapter_Watts__c"),
    ("final_os", "Final_Operating_System__c"),
    ("serial_number", "Serial_Number__c"),
    ("model_name", "Processor_Speed__c"),
    ("RAM", "RAM_Total_MB__c"),
    ("storage", "Hard_Drive_GB__c"),
    ("screen_size", "Screen_Size__c"),
    ("battery_health", "Battery_Health__c"),
    ("has_ethernet", "Ethernet_present__c"),
    ("has_wifi", "WiFi_present__c"),
    ("has_optical_drive", "Optical_Drive_present__c"),
    ("has_touchscreen", "TouchScreen_Works__c")
  ]

  /** The script's `FINAL_OS_OPTIONS`: three systems, where the package
      configures one. */
  const FinalOsOptions: seq<string> := ["20.04_Xubuntu_Linux", "Win 10", "Chrome OS"]

  /** The script's `AUTO_FIELDS_LINUX_COMMANDS`; only `storage` differs
      from the package's table. */
  const Commands: map<string, seq<string>> :=
    Config.AutoCommands["storage" := ["df -x tmpfs --total -BG", "grep 'total'", "awk '{print $2}'"]]

  /** The script's table gives every configured field the API name the
      package configures; its one extra field is `serial_number`. */
  lemma FieldTableAgreesWithConfig()
    ensures forall i :: 0 <= i < |FieldTable| && FieldTable[i].0 != "serial_number" ==>
              FieldTable[i].0 in Config.ApiNames && Config.ApiNames[FieldTable[i].0] == FieldTable[i].1
    ensures "serial_number" !in Config.ApiNames
  {
  }

  /** Every configured field is in the script's table. */
  lemma FieldTableCoversConfig()
    ensures forall k :: k in Config.ApiNames ==> exists i :: 0 <= i < |FieldTable| && FieldTable[i].0 == k
  {
    forall k | k in Config.ApiNames ensures exists i :: 0 <= i < |FieldTable| && FieldTable[i].0 == k {
      assert k in Config.ManualFieldNames || k in Config.AutoFieldNames by {
        Config.FieldListsPartitionApiNames();
      }
      if k in Config.ManualFieldNames {
        var j :| 0 <= j < |Config.ManualFieldNames| && Config.ManualFieldNames[j] == k;
        assert FieldTable[j].0 == k;
      } else {
        var j :| 0 <= j < |Config.AutoFieldNames| && Config.AutoFieldNames[j] == k;
        assert FieldTable[j + 7].0 == k;
      }
    }
  }

  /** No two fields of the script's table share a name or an API name. */
  lemma FieldTableDistinct()
    ensures forall a, b :: 0 <= a < b < |FieldTable| ==> FieldTable[a].1 != FieldTable[b].1
    ensures forall a, b :: 0 <= a < b < |FieldTable| ==> FieldTable[a].0 != FieldTable[b].0
  {
  }

  // ---------------------------------------------------------------------
  // data_input

  /** `print(x)` of an optional string: `None` prints as "None". */
  function PyStr(o: Option<string>): string {
    match o
    case None => "None"
    case Some(s) => s
  }

  /** The CRID prompt with the message the script prints: it names the
      `CRID` attribute, which the loop only sets when it ends. */
  function CridDecisionAsWritten(lookup: MV.Lookup, current: Option<string>, cr: string): (r: Step<(string, string)>)
    ensures r.Retry? && cr != "" ==> r.msg == MV.NoRecordMsg(PyStr(current))
  {
    if cr == "" then Retry(MV.CridRequiredMsg)
    else match lookup(Config.CridApiName, cr)
      case Some(eid) => Done((cr, eid))
      case None => Retry(MV.NoRecordMsg(PyStr(current)))
  }

  /** The CRID prompt: an empty answer or a CRID the store does not know
      asks again, naming the CRID entered; a known CRID ends the loop with
      the CRID and the record id found for it. */
  function CridDecision(lookup: MV.Lookup, cr: string): (r: Step<(string, string)>)
    ensures !r.Raise?
    ensures r.Done? <==> cr != "" && lookup(Config.CridApiName, cr).Some?
    ensures r.Done? ==> r.v == (cr, lookup(Config.CridApiName, cr).value)
    ensures cr == "" ==> r == Retry(MV.CridRequiredMsg)
    ensures r.Retry? && cr != "" ==> MV.Mentions(r.msg, cr)
  {
    if cr == "" then Retry(MV.CridRequiredMsg)
    else match lookup(Config.CridApiName, cr)
      case Some(eid) => Done((cr, eid))
      case None => MV.NoRecordMsgMentionsCrid(cr); Retry(MV.NoRecordMsg(cr))
  }

  /** In the loop the `CRID` attribute is still unset, so the message for
      an unknown CRID names "None" whatever the operator typed, where the
      corrected prompt names the CRID entered. */
  lemma CridMessageAsWrittenIgnoresCrid(lookup: MV.Lookup, cr: string)
    requires cr != "" && cr != "None" && lookup(Config.CridApiName, cr).None?
    ensures CridDecisionAsWritten(lookup, None, cr) == Retry(MV.NoRecordMsg("None"))
    ensures CridDecision(lookup, cr) == Retry(MV.NoRecordMsg(cr))
    ensures MV.NoRecordMsg("None") != MV.NoRecordMsg(cr)
  {
    if MV.NoRecordMsg("None") == MV.NoRecordMsg(cr) {
      NoRecordMsgInjective("None", cr);
    }
  }

  /** Different CRIDs give different messages. */
  lemma NoRecordMsgInjective(a: string, b: string)
    requires MV.NoRecordMsg(a) == MV.NoRecordMsg(b)
    ensures a == b
  {
    var prefix := "There is no record with CRID ";
    var m := MV.NoRecordMsg(a);
    assert |a| == |b|;
    assert m[|prefix|..|prefix| + |a|] == a;
    assert MV.NoRecordMsg(b)[|prefix|..|prefix| + |b|] == b;
  }

  /** The same with a concrete CRID: typing "12345" for a CRID the store
      does not know prints the message for CRID "None". */
  lemma CridMessageExample()
    ensures var lookup: MV.Lookup := (k: string, v: string) => None;
            && CridDecisionAsWritten(lookup, None, "12345").msg == MV.NoRecordMsg("None")
            && CridDecision(lookup, "12345").msg == MV.NoRecordMsg("12345")
            && MV.NoRecordMsg("None") != MV.NoRecordMsg("12345")
  {
    var lookup: MV.Lookup := (k: string, v: string) => None;
    CridMessageAsWrittenIgnoresCrid(lookup, "12345");
  }

  /** Apart from the message, the script's prompt decides as the corrected
      one does. */
  lemma CridDecisionAsWrittenAgrees(lookup: MV.Lookup, current: Option<string>, cr: string)
    ensures CridDecisionAsWritten(lookup, current, cr).Done? <==> CridDecision(lookup, cr).Done?
    ensures CridDecisionAsWritten(lookup, current, cr).Done? ==>
              CridDecisionAsWritten(lookup, current, cr) == CridDecision(lookup, cr)
  {
  }

  const YesNoSkipMsg: string := "Please enter a valid option [y/n], or ENTER to skip"

  /** The webcam prompt and each video-port prompt: the answer is
      lower-cased; "y" and "n" answer yes and no, an empty answer leaves
      the question open, anything else asks again. */
  function YesNoSkip(ans: string): (r: Step<Option<bool>>)
    ensures !r.Raise?
    ensures r == Done(Some(true)) <==> ans == "y" || ans == "Y"
    ensures r == Done(Some(false)) <==> ans == "n" || ans == "N"
    ensures r == Done(None) <==> ans == ""
  {
    LowerAnswers(ans);
    var a := Lower(ans);
    if a == "y" then Done(Some(true))
    else if a == "n" then Done(Some(false))
    else if a == "" then Done(None)
    else Retry(YesNoSkipMsg)
  }

  /** The list so far, empty when unset. */
  function Base(o: Option<seq<string>>): seq<string> {
    if o.None? then [] else o.value
  }

  /** One video-port answer: "y" appends the port, starting a list when
      there is none; "n" starts an empty list when there is none; no
      answer leaves the list as it was. */
  function PortEffect(cur: Option<seq<string>>, port: string, ans: Option<bool>): (r: Option<seq<string>>)
    ensures ans.None? ==> r == cur
    ensures ans.Some? ==> r.Some?
    ensures Base(r) == Base(cur) + (if ans == Some(true) then [port] else [])
  {
    match ans
    case None => cur
    case Some(true) => Some((if cur.None? then [] else cur.value) + [port])
    case Some(false) => if cur.None? then Some([]) else cur
  }

  /** The `for port in VIDEO_PORT_OPTIONS` loop: one prompt per port. */
  function PortsIntake(cur: Option<seq<string>>, ports: seq<string>, inputs: seq<string>): (r: Prompted<Option<seq<string>>>)
    ensures !r.Raised?
    decreases |ports|
  {
    if ports == [] then Answered(cur, inputs)
    else
      PromptNeverRaises(YesNoSkip, inputs);
      match Prompt(YesNoSkip, inputs)
      case Answered(a, rest) => PortsIntake(PortEffect(cur, ports[0], a), ports[1..], rest)
      case Raised(m) => Raised(m)
      case Exhausted => Exhausted
  }

  /** The ports the intake picks extend what was there with an in-order
      selection of the ports asked about; with no list to start from and
      no "y" or "n" answer it stays unset. */
  lemma {:induction false} PortsIntakePicks(cur: Option<seq<string>>, ports: seq<string>, inputs: seq<string>)
    returns (picked: seq<string>)
    ensures var r := PortsIntake(cur, ports, inputs);
            r.Answered? ==>
              && (r.v.None? ==> cur.None?)
              && (r.v.Some? ==> r.v.value == Base(cur) + picked)
              && IsSubseq(picked, ports)
    decreases |ports|
  {
    picked := [];
    if ports != [] {
      var p := Prompt(YesNoSkip, inputs);
      if p.Answered? {
        var next := PortEffect(cur, ports[0], p.v);
        var later := PortsIntakePicks(next, ports[1..], p.rest);
        assert PortsIntake(cur, ports, inputs) == PortsIntake(next, ports[1..], p.rest);
        if PortsIntake(next, ports[1..], p.rest).Answered? {
          SubseqStep(Base(cur), ports, p.v == Some(true), later);
          picked := if p.v == Some(true) then [ports[0]] + later else later;
        }
      }
    }
  }

  /** The video ports the script records are unset, or distinct ports in
      the order `VIDEO_PORT_OPTIONS` lists them. */
  lemma VideoPortsAreOrderedOptions(inputs: seq<string>)
    ensures var r := PortsIntake(None, Config.VideoPortOptions, inputs);
            r.Answered? && r.v.Some? ==>
              IsSubseq(r.v.value, Config.VideoPortOptions) && NoDuplicates(r.v.value)
  {
    var picked := PortsIntakePicks(None, Config.VideoPortOptions, inputs);
    var r := PortsIntake(None, Config.VideoPortOptions, inputs);
    if r.Answered? && r.v.Some? {
      assert r.v.value == picked;
      Config.OptionListsWellFormed();
      SubseqNoDuplicates(picked, Config.VideoPortOptions);
    }
  }

  const IntRetryMsg: string := "Please enter a valid integer, or ENTER to skip"

  /** The USB prompt: an empty answer skips, any integer is kept, anything
      else asks again. There is no range check. */
  function UsbDecision(ans: string): (r: Step<Option<int>>)
    ensures !r.Raise?
    ensures r == Done(None) <==> ans == ""
    ensures r.Done? && r.v.Some? <==> ans != "" && IsIntLiteral(ans)
    ensures r.Done? && r.v.Some? ==> ParseInt(ans) == r.v
  {
    if ans == "" then Done(None)
    else match ParseInt(ans)
      case Some(n) => Done(Some(n))
      case None => Retry(IntRetryMsg)
  }

  /** Every integer, however large or negative, is stored as the USB
      count. */
  lemma UsbStoresAnyInteger(n: int)
    ensures UsbDecision(IntToString(n)) == Done(Some(n))
  {
    ParseIntToString(n);
  }

  const OsRetryMsg: string := "Please enter a valid integer option, or ENTER to skip"

  /** The final-OS prompt: an empty answer skips; a number k from 1 to the
      number of options picks option k; anything else asks again. */
  function OsDecision(ans: string): (r: Step<Option<string>>)
    ensures !r.Raise?
    ensures r == Done(None) <==> ans == ""
    ensures r.Done? && r.v.Some? ==> r.v.value in FinalOsOptions
    ensures r.Done? && r.v.Some? ==> ParseInt(ans).Some? && 1 <= ParseInt(ans).value <= |FinalOsOptions|
    ensures r.Done? && r.v.Some? ==> r.v.value == FinalOsOptions[ParseInt(ans).value - 1]
  {
    if ans == "" then Done(None)
    else match ParseInt(ans)
      case None => Retry(OsRetryMsg)
      case Some(k) =>
        if k < 1 || k > |FinalOsOptions| then Retry(OsRetryMsg)
        else Done(Some(FinalOsOptions[k - 1]))
  }

  /** Any answer `int()` reads as `k` (`2`, `02`, `+2`) picks by 1-based
      position; zero, negative and too-large numbers ask again. */
  lemma OsPicksByPosition(ans: string, k: int)
    requires ParseInt(ans) == Some(k)
    ensures 1 <= k <= |FinalOsOptions| ==> OsDecision(ans) == Done(Some(FinalOsOptions[k - 1]))
    ensures (k < 1 || k > |FinalOsOptions|) ==> OsDecision(ans) == Retry(OsRetryMsg)
  {
    assert ans != "" by { assert ParseInt("").None?; }
  }

  /** In particular the plain numeral of `k` picks option `k`. */
  lemma OsPicksByNumeral(k: int)
    ensures 1 <= k <= |FinalOsOptions| ==> OsDecision(IntToString(k)) == Done(Some(FinalOsOptions[k - 1]))
    ensures (k < 1 || k > |FinalOsOptions|) ==> OsDecision(IntToString(k)) == Retry(OsRetryMsg)
  {
    ParseIntToString(k);
    OsPicksByPosition(IntToString(k), k);
  }

  /** What `data_input` leaves behind. */
  datatype Answers = Answers(crid: string, eid: string, webcam: Option<bool>, ports: Option<seq<string>>,
                             usb: Option<int>, watts: Option<string>, os: Option<string>)

  /** `data_input`: the CRID, webcam, port, USB, watts and final-OS
      prompts in turn, each reading the answers the previous one left. */
  function DataInput(inputs: seq<string>, lookup: MV.Lookup): Prompted<Answers> {
    match Prompt(CridStep(lookup), inputs)
    case Raised(m) => Raised(m)
    case Exhausted => Exhausted
    case Answered(id, r1) =>
      match Prompt(YesNoSkip, r1)
      case Raised(m) => Raised(m)
      case Exhausted => Exhausted
      case Answered(cam, r2) =>
        match PortsIntake(None, Config.VideoPortOptions, r2)
        case Raised(m) => Raised(m)
        case Exhausted => Exhausted
        case Answered(ports, r3) => FinishInput(id, cam, ports, r3)
  }

  /** The USB, watts and final-OS prompts. The watts prompt reads exactly
      one answer and keeps it when non-empty. */
  function FinishInput(id: (string, string), cam: Option<bool>, ports: Option<seq<string>>, inputs: seq<string>)
    : (r: Prompted<Answers>)
    ensures r.Answered? ==> r.v.crid == id.0 && r.v.eid == id.1 && r.v.webcam == cam && r.v.ports == ports
    ensures r.Answered? && r.v.os.Some? ==> r.v.os.value in FinalOsOptions
    ensures r.Answered? && r.v.watts.Some? ==> r.v.watts.value != ""
  {
    match Prompt(UsbDecision, inputs)
    case Raised(m) => Raised(m)
    case Exhausted => Exhausted
    case Answered(usb, r4) =>
      if r4 == [] then Exhausted
      else
        var watts := if r4[0] != "" then Some(r4[0]) else None;
        OsLoopPicksOption(r4[1..]);
        match Prompt(OsDecision, r4[1..])
        case Raised(m) => Raised(m)
        case Exhausted => Exhausted
        case Answered(os, r5) => Answered(Answers(id.0, id.1, cam, ports, usb, watts, os), r5)
  }

  /** The CRID prompt as a rule over answers. */
  function CridStep(lookup: MV.Lookup): string -> Step<(string, string)> {
    (cr: string) => CridDecision(lookup, cr)
  }

  /** The CRID loop ends with a CRID the store knows and its record id. */
  lemma CridLoopFindsRecord(inputs: seq<string>, lookup: MV.Lookup)
    ensures var r := Prompt(CridStep(lookup), inputs);
            r.Answered? ==> r.v.0 != "" && lookup(Config.CridApiName, r.v.0) == Some(r.v.1)
  {
    PromptPreserves(CridStep(lookup), inputs,
                    (id: (string, string)) => id.0 != "" && lookup(Config.CridApiName, id.0) == Some(id.1));
  }

  /** The final-OS loop ends with no choice or one of the options. */
  lemma OsLoopPicksOption(inputs: seq<string>)
    ensures var r := Prompt(OsDecision, inputs);
            r.Answered? && r.v.Some? ==> r.v.value in FinalOsOptions
  {
    PromptPreserves(OsDecision, inputs, (o: Option<string>) => o.Some? ==> o.value in FinalOsOptions);
  }

  /** What `data_input` can end with: a CRID the store knows, with the id
      found for it; ports unset or an in-order selection of distinct
      options; a final OS among the options; watts non-empty when set. */
  lemma DataInputSound(inputs: seq<string>, lookup: MV.Lookup)
    ensures var r := DataInput(inputs, lookup);
            r.Answered? ==>
              && r.v.crid != ""
              && lookup(Config.CridApiName, r.v.crid) == Some(r.v.eid)
              && (r.v.ports.Some? ==> IsSubseq(r.v.ports.value, Config.VideoPortOptions)
                                      && NoDuplicates(r.v.ports.value))
              && (r.v.os.Some? ==> r.v.os.value in FinalOsOptions)
              && (r.v.watts.Some? ==> r.v.watts.value != "")
  {
    var r := DataInput(inputs, lookup);
    if r.Answered? {
      CridLoopFindsRecord(inputs, lookup);
      var r1 := Prompt(CridStep(lookup), inputs).rest;
      VideoPortsAreOrderedOptions(Prompt(YesNoSkip, r1).rest);
    }
  }

  /** Once the first port gets a "y" or "n" (either case), `video_ports`
      is set when the loop ends. */
  lemma PortsSetOnceAnswered(cur: Option<seq<string>>, ports: seq<string>, inputs: seq<string>, k: nat)
    requires ports != [] && k < |inputs| && RetriesBefore(YesNoSkip, inputs, k)
    requires inputs[k] in ["y", "Y", "n", "N"]
    requires PortsIntake(cur, ports, inputs).Answered?
    ensures PortsIntake(cur, ports, inputs).v.Some?
  {
    PromptStopsAtFirstDecision(YesNoSkip, inputs, k);
    var p := Prompt(YesNoSkip, inputs);
    var next := PortEffect(cur, ports[0], p.v);
    var _ := PortsIntakePicks(next, ports[1..], p.rest);
  }

  /** The attributes `data_input` sets: the CRID always, the others when
      answered. */
  function SetIf(m: map<string, Value>, name: string, v: Option<Value>): (m': map<string, Value>)
    ensures v.Some? ==> m' == m[name := v.value]
    ensures v.None? ==> m' == m
  {
    if v.Some? then m[name := v.value] else m
  }

  function OptStr(o: Option<string>): Option<Value> {
    if o.Some? then Some(Str(o.value)) else None
  }

  function OptBool(o: Option<bool>): Option<Value> {
    if o.Some? then Some(Bool(o.value)) else None
  }

  function OptInt(o: Option<int>): Option<Value> {
    if o.Some? then Some(Int(o.value)) else None
  }

  function OptList(o: Option<seq<string>>): Option<Value> {
    if o.Some? then Some(List(o.value)) else None
  }

  /** Everything from the automatic collection and the store. */
  datatype Info = Info(attrs: map<string, Value>, eid: Option<string>, errors: Record)

  /** The object after `data_input`: the answers as attributes, the record
      id, no errors yet. */
  function InfoOf(a: Answers): (info: Info)
    ensures forall k :: k in info.attrs ==> k in Config.ManualFieldNames
    ensures "CRID" in info.attrs && info.attrs["CRID"] == Str(a.crid)
    ensures "video_ports" in info.attrs <==> a.ports.Some?
    ensures a.ports.Some? ==> info.attrs["video_ports"] == List(a.ports.value)
    ensures info.eid == Some(a.eid) && info.errors == []
  {
    var m := map["CRID" := Str(a.crid)];
    var m := SetIf(m, "has_webcam", OptBool(a.webcam));
    var m := SetIf(m, "video_ports", OptList(a.ports));
    var m := SetIf(m, "num_usb_ports", OptInt(a.usb));
    var m := SetIf(m, "adapter_watts", OptStr(a.watts));
    var m := SetIf(m, "final_os", OptStr(a.os));
    Info(m, Some(a.eid), [])
  }

  /** An attribute's value, `None` when unset. */
  function Attr(info: Info, name: string): (v: Option<Value>)
    ensures v.Some? <==> name in info.attrs
  {
    if name in info.attrs then Some(info.attrs[name]) else None
  }

  // ---------------------------------------------------------------------
  // data_collection

  /** How a pipeline's output is read. */
  datatype Reader = ModelReader | SizeReader | ScreenReader | BatteryReader

  /** `float()` of a decimal literal. */
  type FloatOf = string -> Value

  /** `float(r.group(1))` on the text before `%`: the battery reading as
      the script keeps it, a number without the `%`. */
  function ReadBattery(s: string, toFloat: FloatOf): (r: Verdict)
    ensures r.Accept? <==> AP.BatteryDigits(s).Some? && AP.IsDecimalLiteral(AP.BatteryDigits(s).value)
    ensures r.Accept? ==> r.v == toFloat(AP.BatteryDigits(s).value)
    ensures !r.Skip?
  {
    match AP.BatteryDigits(s)
    case None => Reject(AP.NoMatchMsg)
    case Some(t) => if AP.IsDecimalLiteral(t) then Accept(toFloat(t)) else Reject(AP.NoMatchMsg)
  }

  /** The `try` blocks after each pipeline; RAM and storage share a
      pattern, and the others are the package's parsers. */
  function Read(reader: Reader, s: string, toFloat: FloatOf): (r: Verdict)
    ensures !r.Skip?
  {
    match reader
    case ModelReader => AP.ParseModel(s)
    case SizeReader => AP.ParseRam(s)
    case ScreenReader => AP.ParseScreen(s)
    case BatteryReader => ReadBattery(s, toFloat)
  }

  /** One parsed pipeline: the attribute it sets, the key its errors go
      under, and the two messages it records. */
  datatype Probe = Probe(name: string, errKey: string, reader: Reader, noMatch: string, badFormat: string)

  /** The five parsed pipelines of `data_collection`, in order. */
  const Probes: seq<Probe> := [
    Probe("model_name", "model name", ModelReader,
          "`grep` didn't find match (unexpected /proc/cpuinfo file format)",
          "regex matching error (unexpected /proc/cpuinfo file format)"),
    Probe("RAM", "RAM", SizeReader,
          "`grep` didn't find match (unexpected /proc/meminfo file format)",
          "regex matching error (unexpected /proc/meminfo file format)"),
    Probe("storage", "storage", SizeReader,
          "`grep` didn't find match (unexpected output format from `df`)",
          "regex matching error (unexpected output format from `df`)"),
    Probe("screen_size", "screen size", ScreenReader,
          "`grep` didn't find match (`xrandr` cannot find current display device)",
          "regex matching error (unexpected output format from `xrandr`)"),
    Probe("battery_health", "battery health", BatteryReader,
          "`grep` didn't find match (battery information not found by `upower`)",
          "regex matching error (unexpected output format from `upower`)")
  ]

  /** The four detection pipelines, in order. */
  const PresenceNames: seq<string> := ["has_ethernet", "has_wifi", "has_optical_drive", "has_touchscreen"]


  /** The command line of a pipeline: its stages joined by " | ". Every
      name the script runs has stages (`PipelinesConfigured`); the empty
      line for other names is never used. */
  function CommandLine(name: string): string {
    if name in Commands then Join(" | ", Commands[name]) else ""
  }

  /** Every pipeline the script runs has a command. */
  lemma PipelinesConfigured()
    ensures forall i :: 0 <= i < |Probes| ==> Probes[i].name in Commands
    ensures forall i :: 0 <= i < |PresenceNames| ==> PresenceNames[i] in Commands
    ensures NoDuplicates(PresenceNames)
  {
  }

  /** One parsed pipeline: a failed command records its output (or the
      probe's no-match message when it printed nothing) under the error
      key; output the reader refuses records the format message; output it
      reads sets the attribute. */
  function RunProbe(info: Info, p: Probe, ran: CommandResult, toFloat: FloatOf): (r: Info)
    ensures r.eid == info.eid
    ensures ran.Failure? ==> r.attrs == info.attrs
    ensures ran.Failure? ==>
              r.errors == Put(info.errors, p.errKey, Str(if ran.output != "" then ran.output else p.noMatch))
    ensures ran.Success? && Read(p.reader, ran.stdout, toFloat).Accept? ==>
              r.attrs == info.attrs[p.name := Read(p.reader, ran.stdout, toFloat).v] && r.errors == info.errors
    ensures ran.Success? && Read(p.reader, ran.stdout, toFloat).Reject? ==>
              r.attrs == info.attrs && r.errors == Put(info.errors, p.errKey, Str(p.badFormat))
  {
    match ran
    case Failure(out) =>
      info.(errors := Put(info.errors, p.errKey, Str(if out != "" then out else p.noMatch)))
    case Success(out) =>
      match Read(p.reader, out, toFloat)
      case Accept(v) => info.(attrs := info.attrs[p.name := v])
      case _ => info.(errors := Put(info.errors, p.errKey, Str(p.badFormat)))
  }

  /** One detection pipeline: the attribute is whether the command
      succeeded, and nothing is recorded as an error. */
  function Detect(info: Info, name: string, ran: CommandResult): (r: Info)
    ensures r.errors == info.errors && r.eid == info.eid
    ensures name in r.attrs && r.attrs[name] == Bool(ran.Success?)
    ensures forall k :: k != name ==> Attr(r, k) == Attr(info, k)
  {
    info.(attrs := info.attrs[name := Bool(ran.Success?)])
  }

  function RunProbes(info: Info, ps: seq<Probe>, exec: Exec, toFloat: FloatOf): Info
    decreases |ps|
  {
    if ps == [] then info
    else RunProbes(RunProbe(info, ps[0], exec(CommandLine(ps[0].name)), toFloat), ps[1..], exec, toFloat)
  }

  function DetectAll(info: Info, names: seq<string>, exec: Exec): Info
    decreases |names|
  {
    if names == [] then info
    else DetectAll(Detect(info, names[0], exec(CommandLine(names[0]))), names[1..], exec)
  }

  /** `data_collection`. */
  function DataCollection(info: Info, exec: Exec, toFloat: FloatOf): Info {
    DetectAll(RunProbes(info, Probes, exec, toFloat), PresenceNames, exec)
  }

  /** The errors a run of parsed pipelines can add are under their keys. */
  lemma {:induction false} ProbeErrorKeys(info: Info, ps: seq<Probe>, exec: Exec, toFloat: FloatOf)
    ensures var r := RunProbes(info, ps, exec, toFloat);
            && r.eid == info.eid
            && forall k :: k in Keys(r.errors) ==>
                 k in Keys(info.errors) || exists i :: 0 <= i < |ps| && ps[i].errKey == k
    decreases |ps|
  {
    if ps != [] {
      var p := ps[0];
      var ran := exec(CommandLine(p.name));
      var next := RunProbe(info, p, ran, toFloat);
      ProbeErrorKeys(next, ps[1..], exec, toFloat);
      if ran.Failure? {
        PutKeys(info.errors, p.errKey, Str(if ran.output != "" then ran.output else p.noMatch));
      } else if Read(p.reader, ran.stdout, toFloat).Reject? {
        PutKeys(info.errors, p.errKey, Str(p.badFormat));
      }
      var r := RunProbes(info, ps, exec, toFloat);
      forall k | k in Keys(r.errors)
        ensures k in Keys(info.errors) || exists i :: 0 <= i < |ps| && ps[i].errKey == k
      {
        if k !in Keys(next.errors) {
          var i :| 0 <= i < |ps| - 1 && ps[1..][i].errKey == k;
          assert ps[i + 1].errKey == k;
        } else if k !in Keys(info.errors) {
          assert ps[0].errKey == k;
        }
      }
    }
  }

  /** The detection pipelines record no error, leave the other attributes
      alone and set each of theirs to whether its command succeeded. */
  lemma {:induction false} DetectAllOutcome(info: Info, names: seq<string>, exec: Exec)
    requires NoDuplicates(names)
    ensures var r := DetectAll(info, names, exec);
            && r.errors == info.errors && r.eid == info.eid
            && (forall i :: 0 <= i < |names| ==> Attr(r, names[i]) == Some(Bool(exec(CommandLine(names[i])).Success?)))
            && (forall k :: k !in names ==> Attr(r, k) == Attr(info, k))
    decreases |names|
  {
    if names != [] {
      var next := Detect(info, names[0], exec(CommandLine(names[0])));
      assert NoDuplicates(names[1..]);
      DetectAllOutcome(next, names[1..], exec);
      var r := DetectAll(info, names, exec);
      forall i | 0 <= i < |names|
        ensures Attr(r, names[i]) == Some(Bool(exec(CommandLine(names[i])).Success?))
      {
        if i > 0 {
          assert names[1..][i - 1] == names[i];
        } else {
          assert names[0] !in names[1..];
        }
      }
    }
  }

  /** The keys the parsed pipelines record their errors under. */
  const ErrorKeys: seq<string> := ["model name", "RAM", "storage", "screen size", "battery health"]

  lemma ErrorKeysOfProbes()
    ensures forall i :: 0 <= i < |Probes| ==> Probes[i].errKey in ErrorKeys
    ensures forall i :: 0 <= i < |Probes| ==> Probes[i].name !in PresenceNames && Probes[i].name != "CRID"
    ensures NoDuplicates(PresenceNames) && "CRID" !in PresenceNames
  {
  }

  /** After `data_collection` the presence attributes are set to whether
      their commands succeeded, and every recorded error is under the key
      of a parsed pipeline: a failed detection is not an error. */
  lemma CollectionOutcome(info: Info, exec: Exec, toFloat: FloatOf)
    ensures var r := DataCollection(info, exec, toFloat);
            && r.eid == info.eid
            && (forall i :: 0 <= i < |PresenceNames| ==>
                  Attr(r, PresenceNames[i]) == Some(Bool(exec(CommandLine(PresenceNames[i])).Success?)))
            && (forall k :: k in Keys(r.errors) ==> k in Keys(info.errors) || k in ErrorKeys)
  {
    ErrorKeysOfProbes();
    var mid := RunProbes(info, Probes, exec, toFloat);
    ProbeErrorKeys(info, Probes, exec, toFloat);
    DetectAllOutcome(mid, PresenceNames, exec);
  }

  /** Collection leaves the CRID attribute alone. */
  lemma CridKept(info: Info, exec: Exec, toFloat: FloatOf)
    ensures Attr(DataCollection(info, exec, toFloat), "CRID") == Attr(info, "CRID")
  {
    ErrorKeysOfProbes();
    var mid := RunProbes(info, Probes, exec, toFloat);
    ProbesKeep(info, Probes, exec, toFloat, "CRID");
    DetectAllOutcome(mid, PresenceNames, exec);
  }

  /** Parsed pipelines only set their own attributes. */
  lemma {:induction false} ProbesKeep(info: Info, ps: seq<Probe>, exec: Exec, toFloat: FloatOf, k: string)
    requires forall i :: 0 <= i < |ps| ==> ps[i].name != k
    ensures Attr(RunProbes(info, ps, exec, toFloat), k) == Attr(info, k)
    decreases |ps|
  {
    if ps != [] {
      ProbesKeep(RunProbe(info, ps[0], exec(CommandLine(ps[0].name)), toFloat), ps[1..], exec, toFloat, k);
    }
  }

  // ---------------------------------------------------------------------
  // _convert_to_record and data_upload

  /** The value `_convert_to_record` sends for an attribute: the port list
      joined with ";", every other value as it is. */
  function WireValue(name: string, v: Option<Value>): (w: Option<Value>)
    ensures w.Some? <==> v.Some?
    ensures name != "video_ports" ==> w == v
  {
    if name == "video_ports" && v.Some? && v.value.List? then Some(Str(Join(";", v.value.items))) else v
  }

  /** A non-empty list of ports without ";" is recovered from the value
      sent by splitting it on ";". */
  lemma PortsWireRoundTrip(xs: seq<string>)
    requires xs != [] && forall k :: 0 <= k < |xs| ==> ';' !in xs[k]
    ensures WireValue("video_ports", Some(List(xs))).Some?
    ensures WireValue("video_ports", Some(List(xs))).value.Str?
    ensures Split(WireValue("video_ports", Some(List(xs))).value.s, ';') == xs
  {
    SplitJoin(xs, ';');
  }

  /** One `(API name, value)` pair per entry of the table, in its order. */
  function RecordPairs(info: Info): (pairs: seq<(string, Option<Value>)>)
    ensures |pairs| == |FieldTable|
    ensures forall i :: 0 <= i < |FieldTable| ==>
              pairs[i] == (FieldTable[i].1, WireValue(FieldTable[i].0, Attr(info, FieldTable[i].0)))
  {
    seq(|FieldTable|, i requires 0 <= i < |FieldTable| =>
      (FieldTable[i].1, WireValue(FieldTable[i].0, Attr(info, FieldTable[i].0))))
  }

  /** `_convert_to_record`. */
  function ToRecord(info: Info): (r: Record)
    ensures UniqueKeys(r)
  {
    Collect(RecordPairs(info))
  }

  /** The record maps the API name of every set attribute to its value
      (the ports joined with ";") and holds nothing for unset ones. */
  lemma RecordIsFaithful(info: Info)
    ensures forall i :: 0 <= i < |FieldTable| ==>
              Get(ToRecord(info), FieldTable[i].1) == WireValue(FieldTable[i].0, Attr(info, FieldTable[i].0))
    ensures forall i :: 0 <= i < |FieldTable| ==>
              (FieldTable[i].1 in Keys(ToRecord(info)) <==> FieldTable[i].0 in info.attrs)
  {
    FieldTableDistinct();
    var pairs := RecordPairs(info);
    forall i | 0 <= i < |FieldTable|
      ensures Get(ToRecord(info), FieldTable[i].1) == WireValue(FieldTable[i].0, Attr(info, FieldTable[i].0))
    {
      CollectGet(pairs, i);
    }
  }

  /** An empty port list is sent as "": the package's front end leaves
      the key out instead. */
  lemma EmptyPortsSentAsEmptyString(info: Info)
    requires Attr(info, "video_ports") == Some(List([]))
    ensures Get(ToRecord(info), "Video__c") == Some(Str(""))
    ensures Cml.WireValue(true, Some(List([]))) == None
  {
    RecordIsFaithful(info);
    assert FieldTable[2] == ("video_ports", "Video__c");
  }

  /** `data_upload`: the first "y" or "n" (either case) decides; "y"
      converts the object and makes one update call with its record id,
      ending the loop whatever the call does. */
  function DataUpload(info: Info, inputs: seq<string>, update: Update): (o: UploadOutcome)
    ensures o.Uploaded? || o.UploadFailed? ==> o.record == ToRecord(info)
    ensures o.Uploaded? ==> info.eid == Some(o.eid) && update(o.eid, o.record)
    ensures o.Uploaded? ==> o.shown == ShownEntries(o.record, Config.CridApiName)
    ensures o.UploadFailed? ==> info.eid.None? || !update(info.eid.value, o.record)
  {
    match Prompt(ConfirmStep, inputs)
    case Answered(true, _) =>
      var record := ToRecord(info);
      if info.eid.Some? && update(info.eid.value, record)
      then Uploaded(info.eid.value, record, ShownEntries(record, Config.CridApiName))
      else UploadFailed(record)
    case Answered(false, _) => Declined
    case _ => Undecided
  }

  /** The first "y" or "n" decides: "y" makes the one attempt, "n" ends
      with nothing sent. */
  lemma UploadDecides(info: Info, inputs: seq<string>, update: Update, k: nat)
    requires k < |inputs| && RetriesBefore(ConfirmStep, inputs, k)
    ensures inputs[k] in ["y", "Y"] ==>
              var o := DataUpload(info, inputs, update);
              (o.Uploaded? || o.UploadFailed?) && o.record == ToRecord(info)
    ensures inputs[k] in ["n", "N"] ==> DataUpload(info, inputs, update) == Declined
  {
    if inputs[k] in ["y", "Y", "n", "N"] {
      PromptStopsAtFirstDecision(ConfirmStep, inputs, k);
    }
  }

  // ---------------------------------------------------------------------
  // The whole script

  /** A run: the object and how the upload ended, or no end because the
      operator stopped answering during `data_input`. */
  datatype Run = Completed(info: Info, outcome: UploadOutcome) | Stopped

  /** `EquipmentInfo()`: input, collection, upload. */
  function ScriptRun(inputs: seq<string>, lookup: MV.Lookup, exec: Exec, toFloat: FloatOf, update: Update): Run {
    match DataInput(inputs, lookup)
    case Answered(a, rest) =>
      var info := DataCollection(InfoOf(a), exec, toFloat);
      Completed(info, DataUpload(info, rest, update))
    case _ => Stopped
  }

  /** A run that uploads writes the record converted from what it
      gathered to the store entry of the CRID entered, whose API name is
      in that record; the errors are only those of parsed pipelines. */
  lemma RunUploadsGatheredRecord(inputs: seq<string>, lookup: MV.Lookup, exec: Exec, toFloat: FloatOf, update: Update)
    ensures var s := ScriptRun(inputs, lookup, exec, toFloat, update);
            s.Completed? ==>
              && "CRID" in s.info.attrs && s.info.attrs["CRID"].Str?
              && s.info.eid == lookup(Config.CridApiName, s.info.attrs["CRID"].s)
              && Get(ToRecord(s.info), Config.CridApiName) == Some(s.info.attrs["CRID"])
              && (forall k :: k in Keys(s.info.errors) ==> k in ErrorKeys)
              && (s.outcome.Uploaded? ==> s.outcome.record == ToRecord(s.info)
                                          && s.info.eid == Some(s.outcome.eid))
  {
    var s := ScriptRun(inputs, lookup, exec, toFloat, update);
    if s.Completed? {
      DataInputSound(inputs, lookup);
      var a := DataInput(inputs, lookup).v;
      var start := InfoOf(a);
      CollectionOutcome(start, exec, toFloat);
      CridKept(start, exec, toFloat);
      RecordIsFaithful(s.info);
      assert FieldTable[0] == ("CRID", Config.CridApiName);
    }
  }

  /** Collection leaves alone every attribute no pipeline sets. */
  lemma CollectionKeeps(info: Info, exec: Exec, toFloat: FloatOf, k: string)
    requires forall i :: 0 <= i < |Probes| ==> Probes[i].name != k
    requires k !in PresenceNames
    ensures Attr(DataCollection(info, exec, toFloat), k) == Attr(info, k)
  {
    ErrorKeysOfProbes();
    ProbesKeep(info, Probes, exec, toFloat, k);
    DetectAllOutcome(RunProbes(info, Probes, exec, toFloat), PresenceNames, exec);
  }

  /** Neither the answers nor the pipelines set `serial_number`. */
  lemma SerialNumberNeverSet(a: Answers, exec: Exec, toFloat: FloatOf)
    ensures "serial_number" !in DataCollection(InfoOf(a), exec, toFloat).attrs
  {
    assert "serial_number" !in Config.ManualFieldNames;
    assert forall i :: 0 <= i < |Probes| ==> Probes[i].name != "serial_number";
    CollectionKeeps(InfoOf(a), exec, toFloat, "serial_number");
  }

  /** An unset `serial_number` puts nothing under its API name. */
  lemma UnsetSerialNumberNotSent(info: Info)
    requires "serial_number" !in info.attrs
    ensures "Serial_Number__c" !in Keys(ToRecord(info))
  {
    RecordIsFaithful(info);
    assert FieldTable[6] == ("serial_number", "Serial_Number__c");
  }

  /** No step of a run sets `serial_number`, so its API name is never in
      the record sent. */
  lemma SerialNumberNeverSent(inputs: seq<string>, lookup: MV.Lookup, exec: Exec, toFloat: FloatOf, update: Update)
    ensures var s := ScriptRun(inputs, lookup, exec, toFloat, update);
            s.Completed? ==>
              && "serial_number" !in s.info.attrs
              && "Serial_Number__c" !in Keys(ToRecord(s.info))
              && (s.outcome.Uploaded? ==> "Serial_Number__c" !in Keys(s.outcome.record))
  {
    var s := ScriptRun(inputs, lookup, exec, toFloat, update);
    if s.Completed? {
      SerialNumberNeverSet(DataInput(inputs, lookup).v, exec, toFloat);
      UnsetSerialNumberNotSent(s.info);
    }
  }

  // ---------------------------------------------------------------------
  // Where the script and the package differ

  /** A failed detection: the package's field records an error, the
      script only sets the attribute to false. */
  lemma DetectionFailureDiffers(f: Fields.AutoField, out: string, format: AP.NumberFormat, info: Info)
    requires f.rule == Fields.PresenceRule && f.core.value == Some(Bool(false))
    ensures Fields.RunAndValidate(f, Fields.Failure(out), format).error.Some?
    ensures Fields.RunAndValidate(f, Fields.Failure(out), format).core.value == Some(Bool(false))
    ensures Detect(info, f.core.name, Fields.Failure(out)).errors == info.errors
    ensures Detect(info, f.core.name, Fields.Failure(out)).attrs[f.core.name] == Bool(false)
  {
    Fields.PresenceOutcome(f, Fields.Failure(out), format);
  }

  /** A USB count over 99: the package refuses it, the script stores it. */
  lemma UsbRangeDiffers(n: int)
    requires n > 99
    ensures MV.ValidateUsb(IntToString(n)).Reject?
    ensures UsbDecision(IntToString(n)) == Done(Some(n))
  {
    MV.UsbAcceptsExactlyTheRange(n);
    UsbStoresAnyInteger(n);
  }

  /** An upper-case "Y": the package's validator refuses it, the script
      reads it as yes. */
  lemma CaseHandlingDiffers()
    ensures MV.ValidateWebcam("Y").Reject?
    ensures YesNoSkip("Y") == Done(Some(true))
  {
  }
}
