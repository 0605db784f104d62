/** The `while True: ans = input(...)` loops of both front ends, as a fold
    over the operator's answers. Each answer is judged by a decision rule;
    the loop stops at the first answer the rule decides on. */
module Prompts {
  import opened Text

  /** What one answer does to a prompt loop: ends it with a value, prints a
      message and asks again, or raises out of it. */
  datatype Step<T> = Done(v: T) | Retry(msg: string) | Raise(msg: string)

  /** How a prompt loop ends: with a value and the answers left for later
      prompts, with an exception, or (the operator having stopped typing)
      not at all. */
  datatype Prompted<T> = Answered(v: T, rest: seq<string>) | Raised(msg: string) | Exhausted

  /** Every answer before `k` makes the loop ask again. */
  predicate RetriesBefore<T>(decide: string -> Step<T>, inputs: seq<string>, k: nat)
    requires k <= |inputs|
  {
    forall j :: 0 <= j < k ==> decide(inputs[j]).Retry?
  }

  /** `rest` is what remains of `inputs` once answers have been read from
      its front. */
  predicate IsSuffix(rest: seq<string>, inputs: seq<string>) {
    |rest| <= |inputs| && rest == inputs[|inputs| - |rest|..]
  }

  /** What remains after two prompts is what remains of the answers. */
  lemma SuffixOfSuffix(inputs: seq<string>, mid: seq<string>, rest: seq<string>)
    requires IsSuffix(mid, inputs) && IsSuffix(rest, mid)
    ensures IsSuffix(rest, inputs)
  {
    assert inputs[|inputs| - |mid|..][|mid| - |rest|..] == inputs[|inputs| - |rest|..];
  }

  /** The prompt loop. */
  function Prompt<T>(decide: string -> Step<T>, inputs: seq<string>): (r: Prompted<T>)
    ensures r.Answered? ==> |r.rest| < |inputs| && r.rest == inputs[|inputs| - |r.rest|..]
    decreases |inputs|
  {
    if inputs == [] then Exhausted
    else match decide(inputs[0])
      case Done(v) => Answered(v, inputs[1..])
      case Retry(_) => Prompt(decide, inputs[1..])
      case Raise(m) => Raised(m)
  }

  /** The loop ends on the first answer the rule decides on: after answer
      `k`, when every earlier answer asked again, it ends the way answer `k`
      says and leaves exactly the answers after it. */
  lemma {:induction false} PromptStopsAtFirstDecision<T>(decide: string -> Step<T>, inputs: seq<string>, k: nat)
    requires k < |inputs| && RetriesBefore(decide, inputs, k) && !decide(inputs[k]).Retry?
    ensures decide(inputs[k]).Done? ==> Prompt(decide, inputs) == Answered(decide(inputs[k]).v, inputs[k + 1..])
    ensures decide(inputs[k]).Raise? ==> Prompt(decide, inputs) == Raised(decide(inputs[k]).msg)
    decreases k
  {
    if k > 0 {
      assert decide(inputs[0]).Retry?;
      assert RetriesBefore(decide, inputs[1..], k - 1) by {
        forall j | 0 <= j < k - 1 ensures decide(inputs[1..][j]).Retry? {
          assert inputs[1..][j] == inputs[j + 1];
        }
      }
      PromptStopsAtFirstDecision(decide, inputs[1..], k - 1);
      assert inputs[1..][k - 1] == inputs[k];
      assert inputs[1..][k..] == inputs[k + 1..];
    }
  }

  /** The loop runs out of answers exactly when every answer asked again. */
  lemma {:induction false} PromptExhaustedIffAllRetry<T>(decide: string -> Step<T>, inputs: seq<string>)
    ensures Prompt(decide, inputs).Exhausted? <==> RetriesBefore(decide, inputs, |inputs|)
    decreases |inputs|
  {
    if inputs != [] {
      PromptExhaustedIffAllRetry(decide, inputs[1..]);
      if decide(inputs[0]).Retry? {
        if RetriesBefore(decide, inputs[1..], |inputs| - 1) {
          forall j | 0 <= j < |inputs| ensures decide(inputs[j]).Retry? {
            if j > 0 { assert inputs[j] == inputs[1..][j - 1]; }
          }
        }
        if RetriesBefore(decide, inputs, |inputs|) {
          forall j | 0 <= j < |inputs| - 1 ensures decide(inputs[1..][j]).Retry? {
            assert inputs[1..][j] == inputs[j + 1];
          }
        }
      }
    }
  }

  /** Whatever every decided value satisfies, the loop's answer satisfies. */
  lemma {:induction false} PromptPreserves<T>(decide: string -> Step<T>, inputs: seq<string>, P: T -> bool)
    requires forall s :: decide(s).Done? ==> P(decide(s).v)
    ensures Prompt(decide, inputs).Answered? ==> P(Prompt(decide, inputs).v)
    decreases |inputs|
  {
    if inputs != [] && decide(inputs[0]).Retry? {
      PromptPreserves(decide, inputs[1..], P);
    }
  }

  /** A rule that never raises gives a loop that never raises. */
  lemma {:induction false} PromptNeverRaises<T>(decide: string -> Step<T>, inputs: seq<string>)
    requires forall s :: !decide(s).Raise?
    ensures !Prompt(decide, inputs).Raised?
    decreases |inputs|
  {
    if inputs != [] && decide(inputs[0]).Retry? {
      PromptNeverRaises(decide, inputs[1..]);
    }
  }

  /** Any answer the loop ends with is one the rule decided on for an
      answer it was given. */
  lemma {:induction false} PromptAnswerWasDecided<T>(decide: string -> Step<T>, inputs: seq<string>)
    requires Prompt(decide, inputs).Answered?
    ensures exists j :: 0 <= j < |inputs| && decide(inputs[j]) == Done(Prompt(decide, inputs).v)
    decreases |inputs|
  {
    if decide(inputs[0]).Retry? {
      PromptAnswerWasDecided(decide, inputs[1..]);
      var j :| 0 <= j < |inputs| - 1 && decide(inputs[1..][j]) == Done(Prompt(decide, inputs).v);
      assert inputs[1..][j] == inputs[j + 1];
    } else {
      assert decide(inputs[0]) == Done(Prompt(decide, inputs).v);
    }
  }

  const ConfirmRetryMsg: string := "Please enter a valid option [y/n]"

  /** The upload confirmation of both front ends: the answer is lower-cased,
      "y" confirms, "n" declines, anything else asks again. */
  function ConfirmStep(ans: string): (r: Step<bool>)
    ensures r == Done(true) <==> ans == "y" || ans == "Y"
    ensures r == Done(false) <==> ans == "n" || ans == "N"
    ensures !r.Raise?
  {
    LowerAnswers(ans);
    var a := Lower(ans);
    if a == "y" then Done(true)
    else if a == "n" then Done(false)
    else Retry(ConfirmRetryMsg)
  }
}
