/** The per-field validators of `src/fields/manual.py`, each a pure map from
    the operator's raw input to a `Verdict`. */
module ManualValidators {
  import opened Common
  import opened Text
  import opened Values
  import Config

  /** The record-store lookup `get_by_custom_id(key, value)['Id']`:
      `Some(id)` when a record matches, `None` when the call raises. */
  type Lookup = (string, string) -> Option<string>

  const CridRequiredMsg: string := "CRID is required"
  const YesNoMsg: string := "Please provide a valid option [y/n], or ENTER to skip"
  const UsbRangeMsg: string := "Please provide a valid integer between 0 and 99"

  /** Rejection text for a CRID the store does not know. */
  function NoRecordMsg(crid: string): string {
    "There is no record with CRID " + crid + " in Salesforce, please double check and reenter"
  }

  function InvalidOptionMsg(options: seq<string>): string {
    "Please provide a valid option " + ListRepr(options)
  }

  /** `needle` occurs somewhere in `msg`. */
  predicate Mentions(msg: string, needle: string) {
    exists i :: 0 <= i <= |msg| && needle <= msg[i..]
  }

  /** A failed lookup's message names the CRID the operator typed. */
  lemma NoRecordMsgMentionsCrid(crid: string)
    ensures Mentions(NoRecordMsg(crid), crid)
  {
    var prefix := "There is no record with CRID ";
    var msg := NoRecordMsg(crid);
    assert msg[|prefix|..] == crid + " in Salesforce, please double check and reenter";
  }

  /** `validate_crid`: required, and accepted only when the store knows it. */
  function ValidateCrid(input: string, lookup: Lookup): (r: Verdict)
    ensures !r.Skip?
    ensures input == "" ==> r == Reject(CridRequiredMsg)
    ensures r.Accept? <==> input != "" && lookup(Config.CridApiName, input).Some?
    ensures r.Accept? ==> r.v == Str(input)
    ensures input != "" && lookup(Config.CridApiName, input).None? ==>
              r.Reject? && Mentions(r.msg, input)
  {
    if input == "" then Reject(CridRequiredMsg)
    else if lookup(Config.CridApiName, input).Some? then Accept(Str(input))
    else
      NoRecordMsgMentionsCrid(input);
      Reject(NoRecordMsg(input))
  }

  /** `validate_webcam`: exactly "y" and "n" (case-sensitive), or skip. */
  function ValidateWebcam(input: string): (r: Verdict)
    ensures r == Accept(Bool(true)) <==> input == "y"
    ensures r == Accept(Bool(false)) <==> input == "n"
    ensures r == Skip <==> input == ""
    ensures r.Reject? <==> input != "y" && input != "n" && input != ""
  {
    if input == "y" then Accept(Bool(true))
    else if input == "n" then Accept(Bool(false))
    else if input == "" then Skip
    else Reject(YesNoMsg)
  }

  /** `validate_video_ports` and `validate_final_os`: membership in the
      field's own option list, or skip. */
  function ValidateOption(input: string, options: seq<string>): (r: Verdict)
    ensures r == Skip <==> input == ""
    ensures r.Accept? <==> input != "" && input in options
    ensures r.Accept? ==> r.v == Str(input)
    ensures r.Reject? ==> r.msg == InvalidOptionMsg(options)
  {
    if input == "" then Skip
    else if input in options then Accept(Str(input))
    else Reject(InvalidOptionMsg(options))
  }

  /** `validate_num_usb`: an integer from 0 to 99, or skip. */
  function ValidateUsb(input: string): (r: Verdict)
    ensures r == Skip <==> input == ""
    ensures r.Accept? <==> input != "" && ParseInt(input).Some? && 0 <= ParseInt(input).value <= 99
    ensures r.Accept? ==> r.v == Int(ParseInt(input).value)
    ensures r.Reject? ==> r.msg == UsbRangeMsg
  {
    if input == "" then Skip
    else match ParseInt(input)
      case None => Reject(UsbRangeMsg)
      case Some(n) => if n < 0 || n > 99 then Reject(UsbRangeMsg) else Accept(Int(n))
  }

  /** Typing `str(n)` stores `n` exactly when `0 <= n <= 99`; every other
      integer is refused with the range message. */
  lemma UsbAcceptsExactlyTheRange(n: int)
    ensures 0 <= n <= 99 ==> ValidateUsb(IntToString(n)) == Accept(Int(n))
    ensures (n < 0 || n > 99) ==> ValidateUsb(IntToString(n)) == Reject(UsbRangeMsg)
  {
    ParseIntToString(n);
  }
}
