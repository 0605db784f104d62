# Hardware-inventory field model in Dafny

This project models the core of a hardware-inventory tool for refurbished
Linux laptops. An operator types some attributes of a machine: the CRID
(the inventory id), the webcam, the video ports, the USB count, the adapter
watts and the final OS. The tool parses the others from the output of Linux
command pipelines: CPU model, RAM, screen size, battery health, and whether
an ethernet, WiFi, optical drive or touchscreen is present. The tool then
shows the collected data and, once the operator confirms, writes it to the
matching equipment record of a Salesforce-like store.

Two front ends are modelled:

- the package under `src/`:
  - the `Field` / `ManualField` / `AutoField` state machine (`Fields`);
  - the per-field validators (`ManualValidators`, `AutoParsers`);
  - the configuration tables (`Config`);
  - the two field registries (`Registry`);
  - the command-line orchestration in `src/cml.py` (`Cml`);
- the older single-file `script.py` (`Script`). It hard-codes the same steps
  with its own tables and messages.

Shared pieces:

- the values a field holds, the three outcomes of a validator and the default validator (`Values`);
- the operator's prompt loops, folded over the list of answers typed (`Prompts`);
- the upload record, a Python `dict` in insertion order (`Records`);
- numerals, `int()`, `str.lower`, `";".join` and `split` (`Text`).

Everything outside the program becomes a parameter of the functions that
need it:

- the store's `get_by_custom_id` is `Lookup`, where `None` means the call raised;
- the store's `update` is `Update`, where `false` means the call raised;
- running a shell pipeline is `Exec`, giving stdout on success or the
  captured output on a non-zero exit;
- `str(round(x, 2))` of the battery reading is `NumberFormat`;
- the script's `float()` is `FloatOf`;
- the operator's keyboard is the sequence of answers.

A prompt loop ends in one of three ways:

- with a value and the answers left for later prompts;
- with an exception;
- `Exhausted`, when the operator never gives a decisive answer.

## Model

| member | source | states |
|---|---|---|
| Fields.NewField | src/fields/field.py:9-14 | Construction fails with the "add its API name to config file" message exactly when the name has no API name. Otherwise the field carries that configured API name and starts at the given default. |
| Fields.ParseKind | src/fields/field.py:19 | Exactly the seven names of `VALID_MANUAL_TYPES` are recognised, and each reads as the kind of that name. |
| Fields.KindNameRoundTrip | src/fields/field.py:19 | Every field kind's type name reads back as that kind. |
| Fields.NewManualField | src/fields/field.py:28-33 | The type is checked before the name: an invalid type gives the type error even for an unmapped name. A valid type builds iff the name is configured. The field gets the default validator, the given options and the given default. |
| Fields.Validate | src/fields/field.py:35-41 | A rejected input raises and changes nothing. A skipped (None) input leaves the field as it was. An accepted value replaces the value, or is appended for a multi-select field. Only the value ever changes. |
| Fields.MultiselectAppendKeepsEarlier | src/fields/field.py:38-39 | A multi-select list keeps its earlier entries as a prefix and grows by at most one option, the input. |
| Fields.ValidateId | src/fields/field.py:43-44 | With the CRID validator, the field is set to the typed CRID exactly when it is non-empty and the store knows it. A failure's message names the typed CRID. Any other validator fails on the extra argument. |
| Fields.NewAutoField | src/fields/field.py:54-58 | No type check: only an unmapped name fails. The field starts without an error, with the default parser and the given default. |
| Fields.RunAndValidate | src/fields/field.py:60-74 | A failed command stores its output as the error, or the "didn't find match" text when the output is empty, and keeps the value. A parser exception stores the format-error text. An accepted value replaces the value. Only value and error change, and an error once set is never cleared. |
| Fields.RunAndValidateIdempotent | src/fields/field.py:60-74 | Running the same command result a second time changes nothing more. |
| Fields.PresenceOutcome | src/fields/auto.py:52-85 | A presence field becomes `True` on command success with no new error. On failure it keeps its value and records an error. From the registry's start (`False`, no error), it ends `True` iff the command succeeded and has an error iff it failed. |
| ManualValidators.ValidateCrid | src/fields/manual.py:9-17 | Never skips. Empty input gives "CRID is required". The input is accepted, as itself, iff it is non-empty and the store lookup succeeds. Otherwise the message names the typed CRID. |
| ManualValidators.NoRecordMsgMentionsCrid | src/fields/manual.py:17 | The unknown-record message contains the CRID it was built from. |
| ManualValidators.ValidateWebcam | src/fields/manual.py:26-34 | "y" gives True and "n" gives False, each in both directions. Empty skips. Every other input, "Y" included, is rejected. |
| ManualValidators.ValidateOption | src/fields/manual.py:45-51 | Empty skips. An input is accepted as itself iff it is one of the options. Anything else raises the message listing the options. The same function serves `validate_final_os` (lines 86-92). |
| ManualValidators.ValidateUsb | src/fields/manual.py:60-69 | Empty skips. An input is accepted iff `int()` reads it and the number lies in 0..99, and the stored value is that number. Every other input gets the range message. |
| ManualValidators.UsbAcceptsExactlyTheRange | src/fields/manual.py:64-67 | Typing `str(n)` stores `n` for 0 ≤ n ≤ 99 and is rejected for every other integer. |
| Values.KeepNonEmpty | src/fields/field.py:32 | The validator every field starts with (also field.py:57 for automatic fields): empty text skips, so the value stays as it was; any other text is stored as it is. |
| AutoParsers.ParseModel | src/fields/auto.py:10-12 | Never skips. An accepted model name is a string with no line break and no leading white space. |
| AutoParsers.ModelLineRoundTrip | src/fields/auto.py:10-12 | A line made of white space, "model name", white space, ":", white space and a name reads back as exactly that name, whatever lines follow. |
| AutoParsers.ParseModelSound | src/fields/auto.py:10-12 | Whatever name is accepted, the input is such a line with that name. |
| AutoParsers.ParseRam | src/fields/auto.py:21-23 | Accepted iff the output opens with decimal digits followed by `G`. The value is a non-negative integer. |
| AutoParsers.RamRoundTrip | src/fields/auto.py:21-23 | `<n>G...` reads back as `n` for every natural number `n`. |
| AutoParsers.RamExample | src/fields/auto.py:21-23 | The output "16G" followed by a newline reads as 16. |
| AutoParsers.DiagonalInches | src/fields/auto.py:36-37 | The result is within half an inch of the diagonal √(w²+h²)/25.4, which is what `round` returns. |
| AutoParsers.RoundsToUnique | src/fields/auto.py:37 | At most one whole number of inches is within half an inch of a diagonal, so the rounding is well defined. |
| AutoParsers.NoHalfInchTies | src/fields/auto.py:37 | No whole-millimetre screen has a diagonal exactly on a half inch, so Python's round-half-to-even rule never applies. |
| AutoParsers.ParseScreen | src/fields/auto.py:32-37 | Accepted iff the `<w>mm x <h>mm` pattern matches (the last one, as the greedy `.*` takes). The value is the diagonal rounded to whole inches. |
| AutoParsers.ScreenExample | src/fields/auto.py:32-37 | A 310 mm by 174 mm screen is 14 inches. |
| AutoParsers.ScreenLineRoundTrip | src/fields/auto.py:32-37 | A first line that ends in a blank and `<w>mm x <h>mm` yields exactly `(w, h)` and is accepted as the diagonal of that screen. This holds whatever one-line text comes before. It holds whether the output ends there or goes on with a new line and further lines, as long as the next line does not open with a blank, a digit or `x`. |
| AutoParsers.NextLineFiguresWin | src/fields/auto.py:33 | The condition on the next line is needed: `\s+` also matches the new line, so `<w>mm x <h>mm` opening the second line is read instead of the figures ending the first. |
| AutoParsers.ScreenDimsSound | src/fields/auto.py:33-35 | Any match starts on the first line, since `.*` cannot cross a new line. From its start come blanks, digits, `mm`, blanks, `x`, blanks, digits and `mm`, where the blanks may include new lines. The dimensions are the values of the two digit runs. |
| AutoParsers.XrandrSampleExample | script.py:260-261 | The sample `xrandr` line in the source, ending `310mm x 174mm` and followed by the new line `grep` prints, is accepted as 14 inches. |
| AutoParsers.BatteryDigits | src/fields/auto.py:47 | A capture exists iff some `%` has only digits and dots before it. The capture is then the run of digits and dots that opens the output, with a `%` right after it. |
| AutoParsers.BatteryRoundTrip | src/fields/auto.py:47 | Digits and dots followed by `%` are captured exactly, whatever comes after the `%`. |
| AutoParsers.BatteryExample | src/fields/auto.py:46-48 | `87%` followed by a newline is accepted as the formatted 87 followed by `%`. |
| AutoParsers.ParseBattery | src/fields/auto.py:46-48 | Accepted iff such a run exists and `float()` can read it. The value is the formatted number followed by `%`. |
| AutoParsers.BatteryNeedsDigits | src/fields/auto.py:47-48 | A bare `%` is refused, because `float("")` raises. |
| Config.ConfiguredNamesAreMapped | src/fields/config.py:2-27 | Every name in `MANUAL_FIELDS` and `AUTO_FIELDS` has an API name, and the CRID's is `Computer_Reach_ID__c`. |
| Config.FieldListsPartitionApiNames | src/fields/config.py:2-27 | The manual and automatic lists are disjoint, and together they are exactly the keys of the API-name map. |
| Config.FieldListsDistinct | src/fields/config.py:21-27 | Neither field list names a field twice. |
| Config.AutoFieldsHaveCommands | src/fields/config.py:27-39 | Every automatic field has a command pipeline. |
| Config.ApiNamesInjective | src/fields/config.py:2-18 | No two fields share an API name. |
| Config.FieldOfApiNameInverts | src/fields/config.py:2-18 | Reading each field's API name backwards gives that field, so the map can be inverted. |
| Config.OptionListsWellFormed | src/fields/config.py:23-24 | The option lists repeat no entry, and no option contains the `;` the picklist encoding joins on. |
| Registry.BuildManual | src/fields/manual.py:4-18 | A constructor call followed by the validator assignment succeeds iff the type is valid and the name is configured. The result carries the entry's name, configured API name, validator, options and default. |
| Registry.BuildAuto | src/fields/auto.py:5-13 | Succeeds iff the name is configured. The result has no error and carries the entry's API name, parser, type and default. |
| Registry.ManualSpecsConfigured | src/fields/manual.py:95 | `manual_fields` lists the `MANUAL_FIELDS` in order, each with a valid type and a configured name. |
| Registry.AutoSpecsConfigured | src/fields/auto.py:88 | `auto_fields` lists eight configured fields. The presence fields default to `False`, and none is a multi-select field. |
| Registry.AutoRegistryNamesConfigured | src/fields/config.py:27-39 | Every automatic registry field is in `AUTO_FIELDS` and has a pipeline. `storage` is configured but has no registry field. |
| Registry.ManualRegistryBuilds | src/fields/manual.py:4-95 | Importing the module builds all six manual fields in `MANUAL_FIELDS` order, each with its configured API name, validator, default and options. The first is the CRID field. |
| Registry.AutoRegistryBuilds | src/fields/auto.py:5-88 | Importing the module builds all eight automatic fields in order, each with its configured API name and parser and no error. The presence fields start at `False`. |
| Prompts.Prompt | src/cml.py:32-38 | A prompt loop that ends with a value has consumed at least one answer and leaves a suffix of the answers for later prompts. |
| Prompts.PromptStopsAtFirstDecision | src/cml.py:32-38 | When every answer before answer `k` asks again, the loop ends as answer `k` decides and leaves exactly the answers after it. |
| Prompts.PromptExhaustedIffAllRetry | src/cml.py:32-38 | The loop runs out of answers iff every answer asked again. |
| Prompts.PromptPreserves | src/cml.py:32-38 | A property of every value the rule can decide holds of the loop's result. |
| Prompts.PromptNeverRaises | src/cml.py:32-38 | A loop whose rule never raises never raises. |
| Prompts.PromptAnswerWasDecided | src/cml.py:32-38 | The loop's result is what the rule decided for one of the answers typed. |
| Prompts.ConfirmStep | src/cml.py:128-161 | The answer is lower-cased: "y" or "Y" confirms and "n" or "N" declines, each in both directions. Anything else asks again, and the step never raises. |
| Records.Get | src/cml.py:132-139 | `record.get(k)` is `None` exactly for an absent key; otherwise the record holds `k` with that value. |
| Records.PutKeys | src/cml.py:139 | `record[k] = v` adds exactly `k` to the keys. |
| Records.PutGet | src/cml.py:139 | After `record[k] = v`, `k` maps to `v` and every other key keeps its value. |
| Records.PutUnique | src/cml.py:139 | Assignment never makes two entries share a key. |
| Records.Collect | src/cml.py:132-139 | The record built by the conversion loop never holds a key twice. |
| Records.CollectKeys | src/cml.py:132-139 | The record's keys are exactly the keys paired with a value that is not `None`. |
| Records.CollectGet | src/cml.py:132-139 | With distinct keys, each key holds exactly the value it was paired with, or is absent for `None`. |
| Records.CollectInOrder | src/cml.py:132-139 | With distinct keys, the record is the assigned pairs in loop order, as a `dict` keeps insertion order. |
| Records.ShownEntries | src/cml.py:149-151 | The listing after an upload shows every record entry except the CRID's, and nothing else. |
| Text.ParseIntToString | src/fields/manual.py:64 | `int(str(i)) == i` for every integer. |
| Cml.StyleOf | src/cml.py:30-89 | The prompt style follows the type: "id"; "text", "int" or "number"; "bool"; "select"; "multiselect". Any other type raises "Unexpected field type", each case in both directions. |
| Cml.EveryKindHasAStyle | src/cml.py:88-89 | No field built by `ManualField` reaches the `raise`. |
| Cml.Retrying | src/cml.py:34-38 | A validation inside `try/except` ends the loop on success with the updated field, and prints the error and asks again on failure. |
| Cml.SelectDecision | src/cml.py:55-75 | Empty ends the loop with the field unchanged. A non-number or a position outside 1..n asks again with the choice message. A valid position validates that option. Never raises. |
| Cml.SelectByPosition | src/cml.py:64-71 | Any answer that reads as a position `k` in 1..n (`3`, `+3`, `03`) validates option `k`. The loop ends iff that validation succeeds. |
| Cml.SelectPicksByPosition | src/cml.py:64-71 | With the option validator, any answer that reads as a position `k` in 1..n stores option `k` and changes nothing else. |
| Cml.SelectPicksByNumeral | src/cml.py:64-71 | Typing `str(k)` for `k` in 1..n stores option `k`. |
| Cml.OptionDecision | src/cml.py:79-87 | "n" or empty moves on unchanged. "y" validates the option, and a validation error escapes (no `try` here). Anything else, "Y" included, asks again. |
| Cml.MultiselectPicks | src/cml.py:76-87 | Multi-select entry ends with the earlier list followed by an in-order selection of the offered options. |
| Cml.MultiselectFromEmpty | src/cml.py:76-87 | From the empty default, the video ports recorded are distinct options in offer order. |
| Cml.MultiselectIntake | src/cml.py:76-87 | Multi-select entry changes at most the field's value and leaves a suffix of the answers for the next field. |
| Cml.IntakeField | src/cml.py:30-89 | One field's entry changes at most the field's value and leaves a suffix of the answers: it consumes them only from the front. |
| Cml.ManualInput | src/cml.py:26-90 | Manual entry returns the same fields in the same order, each changed at most in its value. The answers left are a suffix of those typed. |
| Cml.IdIntakeKnowsRecord | src/cml.py:31-38 | The CRID loop only ends on a non-empty CRID the store knows, and stores it. |
| Cml.AutoCollection | src/cml.py:101-102 | Collection fails (KeyError) iff some field has no pipeline. Otherwise each field is the result of running its own pipeline. |
| Cml.ErrorPositions | src/cml.py:104-107 | The report lists exactly the fields with a non-empty error, in registry order, each once. |
| Cml.ErrorReport | src/cml.py:104-107 | One line per such field, pairing its display string with its error. |
| Cml.CollectedErrorsAreReported | src/cml.py:99-107 | After collecting fields that start without an error, the report lists a field iff collection recorded an error for it. An error is never the empty string, so `if field.error` misses none. |
| Cml.PresenceFollowsCommand | src/cml.py:101-102 | A presence field ends `True` exactly when its pipeline succeeded, and has an error exactly when it failed. |
| Cml.WireValue | src/cml.py:134-138 | Non-list fields send their value. A multi-select field sends a value iff its list is non-empty. Unset fields send nothing. |
| Cml.PicklistRoundTrip | src/cml.py:135-136 | A non-empty selection of `;`-free options is sent as a string that splits back into the selection. |
| Cml.VideoPortsExample | src/cml.py:135-136 | VGA and HDMI are sent as "VGA;HDMI"; an empty selection sends nothing. |
| Cml.RecordKeys | src/cml.py:132-139 | The record's keys are exactly the API names of fields that send a value. |
| Cml.RecordValues | src/cml.py:132-139 | With distinct API names, each field's key holds exactly its converted value. |
| Cml.ConfiguredFieldsHaveDistinctKeys | src/cml.py:139 | Fields with distinct configured names never collide in the record. |
| Cml.ReviewShown | src/cml.py:123-125 | The review lists exactly the fields whose value is set. |
| Cml.RecordOnlyHoldsShownFields | src/cml.py:122-139 | Every key uploaded belongs to a field the review showed ("fields not shown below will be empty"). |
| Cml.Attempt | src/cml.py:142-156 | One try: it uploads iff the CRID field holds a string the store knows and the update succeeds. The record id is the looked-up one, and the listing shows every entry except the CRID. Otherwise the attempt fails with the same record. |
| Cml.ConfirmDecides | src/cml.py:128-161 | The first "y"/"Y" makes exactly one attempt with the converted record; the first "n"/"N" declines. |
| Cml.UndecidedWithoutAnswer | src/cml.py:128-161 | Without a "y" or "n" among the answers, nothing is uploaded. |
| Cml.RaisedNever | src/cml.py:128-161 | The confirmation loop never raises. |
| Cml.Run | src/cml.py:170-174 | A finished run returns the same fields in order, changed at most in value (and error), and an error report for the collected fields. |
| Cml.RegistryRecordIsFaithful | src/cml.py:132-139 | For fields named as the registry names them, each field's configured API name holds exactly its converted value. |
| Cml.RunRecordIsFaithful | src/cml.py:170-174 | A finished run on the registry uploads, under each field's configured API name, exactly that field's final converted value. |
| Cml.RegistryFieldsFaithful | src/cml.py:132-139 | The same holds for any fields that differ from the registry's at most in their values. |
| Script.FieldTableAgreesWithConfig | script.py:32-49 | The script's table gives every configured field the package's API name. Its extra `serial_number` is not in the package's configuration. |
| Script.FieldTableCoversConfig | script.py:32-49 | Every field the package configures is in the script's table. |
| Script.FieldTableDistinct | script.py:32-49 | No two entries of the script's table share a field name or an API name. |
| Script.CridDecision | script.py:123-134 | Corrected CRID prompt. It never raises. It ends iff the CRID is non-empty and the store knows it, giving the CRID and its record id. Empty asks again with "CRID is required". An unknown CRID asks again with a message naming it. |
| Script.CridDecisionAsWritten | script.py:133 | The CRID prompt as the script writes it: the unknown-record message names whatever the `CRID` attribute holds at that point. |
| Script.CridMessageAsWrittenIgnoresCrid | script.py:133 | For any unknown CRID other than "None", the script's message says "CRID None", while the corrected one names the CRID typed. The two messages differ. |
| Script.CridMessageExample | script.py:133 | With the store empty, typing "12345" prints "There is no record with CRID None ...". |
| Script.CridDecisionAsWrittenAgrees | script.py:123-134 | Apart from the message, the script's prompt decides exactly as the corrected one. |
| Script.CridLoopFindsRecord | script.py:123-134 | The CRID loop ends with a non-empty CRID the store knows and the record id the store gave for it. |
| Script.YesNoSkip | script.py:137-148 | The answer is lower-cased: "y"/"Y" gives True, "n"/"N" gives False and empty gives no answer, each in both directions. Anything else asks again. |
| Script.PortEffect | script.py:153-164 | Skipping leaves the port list as it was. "y" or "n" makes sure a list exists, and "y" appends the port. |
| Script.PortsIntakePicks | script.py:151-167 | The ports loop ends with the earlier list followed by an in-order selection of the ports offered. It stays unset only if it was unset. |
| Script.PortsSetOnceAnswered | script.py:151-167 | Once the first port gets "y" or "n", `video_ports` is set at the end of the loop. |
| Script.VideoPortsAreOrderedOptions | script.py:151-167 | The recorded video ports are unset, or distinct options in `VIDEO_PORT_OPTIONS` order. |
| Script.UsbDecision | script.py:169-177 | Empty skips. Every integer literal is stored as its value, with no range check. Anything else asks again. |
| Script.UsbStoresAnyInteger | script.py:169-177 | Typing `str(n)` stores `n` for every integer, negative or above 99. |
| Script.OsDecision | script.py:185-198 | Empty skips, and skips only for an empty answer. A chosen OS is the option at the position the answer reads as, a number from 1 to 3. Never raises. |
| Script.OsPicksByPosition | script.py:192-198 | Any answer `int()` reads as `k` (`2`, `02`, `+2`) picks option `k` when `k` is in 1..3. Zero, negative and larger numbers ask again. |
| Script.OsPicksByNumeral | script.py:192-198 | Typing `str(k)` picks option `k` for `k` in 1..3 and asks again otherwise. |
| Script.OsLoopPicksOption | script.py:185-198 | The final-OS loop ends with no choice or one of the options. |
| Script.FinishInput | script.py:169-198 | The USB, watts and OS prompts keep the earlier answers. A chosen OS is an option, and recorded watts are non-empty. |
| Script.DataInputSound | script.py:116-198 | Manual entry ends with a non-empty CRID the store knows and its record id. The ports are unset or distinct options in order, the OS is unset or an option, and the watts are unset or non-empty. |
| Script.InfoOf | script.py:74-96 | After manual entry only manual attributes are set. CRID is always set, and `video_ports` is set iff the loop set it. The record id is the looked-up one, and no errors exist yet. |
| Script.ReadBattery | script.py:277-281 | Accepted iff digits and dots open the output before a `%` and form a number `float()` reads. The value is that float. |
| Script.PipelinesConfigured | script.py:60-70 | Every pipeline the script runs has a command, and the presence fields are distinct. |
| Script.RunProbe | script.py:205-281 | A failed command records its output, or the field's fallback text, under the field's error key and sets nothing. A parsed value sets the attribute. A parse failure records the field's format message. |
| Script.Detect | script.py:283-321 | A detection sets its attribute to whether the command succeeded, records no error, and leaves every other attribute alone. |
| Script.ProbeErrorKeys | script.py:205-281 | The parsed pipelines add errors only under their own error keys. |
| Script.DetectAllOutcome | script.py:283-321 | After the four detections each presence attribute is the success of its command, errors are unchanged, and other attributes are untouched. |
| Script.ErrorKeysOfProbes | script.py:212-281 | The error keys are "model name", "RAM", "storage", "screen size" and "battery health". No parsed pipeline writes a presence attribute or the CRID. |
| Script.CollectionOutcome | script.py:202-321 | After collection, the presence attributes reflect their commands. Errors are only under the five error keys or were there before. |
| Script.CridKept | script.py:202-321 | Collection leaves the CRID attribute alone. |
| Script.CollectionKeeps | script.py:202-321 | Collection leaves alone every attribute that no pipeline sets. |
| Script.ProbesKeep | script.py:205-281 | Parsed pipelines touch only their own attributes. |
| Script.WireValue | script.py:384-388 | A set attribute is sent, an unset one is not. Only `video_ports` is converted, to its `;`-joined string. |
| Script.PortsWireRoundTrip | script.py:386-387 | A non-empty port list without `;` is recovered by splitting the value sent on `;`. |
| Script.ToRecord | script.py:380-390 | The converted record never holds a key twice. |
| Script.RecordIsFaithful | script.py:380-390 | Each table entry's API name holds exactly the converted attribute, and is present iff the attribute is set. |
| Script.EmptyPortsSentAsEmptyString | script.py:386-387 | An empty port list is sent as "", whereas the package's front end sends nothing for it. |
| Script.SerialNumberNeverSet | script.py:84 | Neither manual entry nor collection sets `serial_number`. |
| Script.UnsetSerialNumberNotSent | script.py:380-390 | An unset `serial_number` puts nothing under `Serial_Number__c` in the record. |
| Script.SerialNumberNeverSent | script.py:84 | On every completed run `serial_number` is unset, so `Serial_Number__c` is not in the converted record or in any record uploaded. |
| Script.DataUpload | script.py:325-351 | An upload sends the converted record to the record id found at entry and only when the update succeeds. The listing omits the CRID. A failed attempt means no id or a failed update. |
| Script.UploadDecides | script.py:330-351 | The first "y"/"Y" makes exactly one attempt; the first "n"/"N" declines. |
| Script.RunUploadsGatheredRecord | script.py:112-114 | A completed run's CRID attribute is a string with its looked-up record id, and the record sends that CRID under the CRID key. Errors are only under the five error keys, and an upload writes the converted record to that id. |
| Script.DetectionFailureDiffers | script.py:284-291 | A failed detection leaves the package's field `False` with an error recorded, but the script's attribute `False` with no error. |
| Script.UsbRangeDiffers | script.py:169-177 | A USB count above 99 is refused by the package but stored by the script. |
| Script.CaseHandlingDiffers | script.py:138 | An upper-case "Y" for the webcam is refused by the package's validator but read as yes by the script. |

## Left out

- Terminal output is not modelled: the ANSI colours, the prompt counters, `__repr__`, the debug dumps and the script's `_display_errors`/`_display_info` listings. Only the record-facing part of the listings is kept (`Cml.ReviewShown`, `Records.ShownEntries`).
- `main.py`, the GUI, argument parsing, the environment-variable checks and authentication are left out. They are configuration of the run, not of the field model.
- `subprocess.check_output` is the `Exec` parameter, `get_by_custom_id` the `Lookup` parameter and `update` the `Update` parameter. A `stderr` capture that differs between pipelines is not distinguished.
- Text.ParseInt: reads an optional sign and ASCII digits only. Python's `int()` also accepts surrounding white space, `_` separators and non-ASCII digits, which an operator is unlikely to type.
- Text.Lower: lowers ASCII letters only; only its effect on "y", "n" and "" is used.
- AutoParsers.ParseScreen: the diagonal is exact real arithmetic done in integers, not a floating-point square root. `NoHalfInchTies` shows that the rounding never meets a tie.
- AutoParsers.ParseBattery: `str(round(float(t), 2))` is the opaque `NumberFormat` parameter, so "87%" reading as "87.0%" is not proved.
- Script.ReadBattery: the script's `float()` is the opaque `FloatOf` parameter.
- Fields.Validate: a multi-select field whose value is not a list (Python would raise on `append`) is modelled as an error, and such a field is never built.
- Cml.Attempt: a CRID field whose value is not a string is treated as a failed attempt. The registry never produces one.
- Cml.CommandLine: requires a configured name; the missing-name `KeyError` path is `Cml.AutoCollection`'s error result.
- Script.CommandLine: gives "" for a name without a pipeline. Every name the script runs has one (`Script.PipelinesConfigured`).
- Cml.ReviewAndUpload: carries no contract of its own. `Cml.ConfirmDecides`, `Cml.UndecidedWithoutAnswer` and `Cml.RaisedNever` state its behaviour.
- Script.ScriptRun: carries no contract of its own; `Script.RunUploadsGatheredRecord` states its behaviour.
- Script.PortsIntake: its own contract only says it never raises; `Script.PortsIntakePicks` states its effect.
- AutoParsers.ParseRam, AutoParsers.ParseScreen and AutoParsers.BatteryDigits read `\d` as an ASCII digit. Python's `re` also matches other Unicode decimal digits, which the model refuses.
- Cml.Attempt: the CRID entry and the second lookup at upload (src/cml.py:143-144) use the same pure `Lookup`. A store that changes between the two can only show up as a failed update.
- The package and the script differ in several places, and each side is modelled as its code is written. Among them:
  - `validate_webcam` in `src/fields/manual.py` accepts only lower-case "y"/"n", while `script.py` lower-cases the answer first (`Script.CaseHandlingDiffers`).
  - `AutoField.run_and_validate` records a failed presence detection's output, or the fallback text, as an error, while `script.py` sets the attribute to `False` with no error (`Script.DetectionFailureDiffers`).
  - `src/cml.py:143-144` looks the CRID up again at upload time, while `script.py` keeps the record id found during CRID entry (`Cml.Attempt`, `Script.DataUpload`).
  - `validate_usb_ports` refuses a count outside 0..99, while `script.py` stores any integer (`Script.UsbRangeDiffers`).
  - `src/cml.py` sends nothing for an empty port list, while `script.py` sends "" (`Script.EmptyPortsSentAsEmptyString`).
  - `FINAL_OS_OPTIONS` has one entry in `src/fields/config.py` and three in `script.py` (`Config.FinalOsOptions`, `Script.FinalOsOptions`).
  - The storage pipeline is `lsblk` in `src/fields/config.py` and `df` in `script.py` (`Config.AutoCommands`, `Script.Commands`).
  - The script's field table has an extra `serial_number`, which nothing sets (`Script.FieldTableAgreesWithConfig`, `Script.SerialNumberNeverSent`).
  - The unknown-CRID message names the typed CRID in `src/fields/manual.py:17`, but the `CRID` attribute at `script.py:133` (see Findings).

## Findings

| source | as written | input that shows it | evidently intended | confidence | as-written member | corrected member |
|---|---|---|---|---|---|---|
| script.py:133 | The "no record" message interpolates the `CRID` attribute. That attribute is only assigned after a successful lookup, so inside the loop it is always `None`. | CRID "12345" unknown to the store: the message reads "There is no record with CRID None in Salesforce, ..." | name the CRID just typed (`cr`), as `validate_crid` does at src/fields/manual.py:17 | high; not executed | Script.CridDecisionAsWritten, Script.CridMessageAsWrittenIgnoresCrid | Script.CridDecision |
