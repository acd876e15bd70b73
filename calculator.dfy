/**
 * The calculator (src/components/Calculator.tsx): a display and an equation
 * string, changed by the digit and operator keys, `clear` and `calculate`.
 * `calculate` hands the equation to JavaScript's evaluator; here that is the
 * parameter `evaluate`, which gives the rendered result or `None` where the
 * evaluator throws.
 */
module Calculator {
  import opened Wrappers
  import Seqs

  /** The sixteen keys, row by row. */
  const Keys: seq<string> := ["7", "8", "9", "÷", "4", "5", "6", "×", "1", "2", "3", "-", "0", ".", "=", "+"]

  /** The operator a key sends to `handleOperator`, if it is an operator key. */
  function OperatorOf(key: string): (op: Option<string>)
    ensures op.Some? <==> key in {"÷", "×", "+", "-"}
    ensures key == "÷" ==> op == Some("/")
    ensures key == "×" ==> op == Some("*")
    ensures key == "+" || key == "-" ==> op == Some(key)
  {
    if key == "÷" then Some("/")
    else if key == "×" then Some("*")
    else if key == "+" || key == "-" then Some(key)
    else None
  }

  /** What one key other than '=' appends to the equation. */
  function Token(key: string): string {
    match OperatorOf(key)
    case Some(op) => " " + op + " "
    case None => key
  }

  /** What a run of keys other than '=' appends to the equation, in order. */
  function Tokens(keys: seq<string>): string
    decreases |keys|
  {
    if |keys| == 0 then "" else Tokens(keys[..|keys| - 1]) + Token(keys[|keys| - 1])
  }

  /** What one key other than '=' leaves on the display. */
  function NextDisplay(display: string, key: string): string {
    if OperatorOf(key).Some? then "0"
    else if display == "0" then key
    else display + key
  }

  /** The display shows '0' or the tail end of the equation. */
  predicate Tracks(display: string, equation: string) {
    display == "0" || (|display| <= |equation| && display == equation[|equation| - |display|..])
  }

  /** Every key other than '=' keeps the display in step with the equation. */
  lemma TracksStep(display: string, equation: string, key: string)
    requires Tracks(display, equation)
    ensures Tracks(NextDisplay(display, key), equation + Token(key))
  {
    var e := equation + Token(key);
    if OperatorOf(key).None? && display != "0" {
      assert e[|e| - |display + key|..] == equation[|equation| - |display|..] + key;
    } else if OperatorOf(key).None? {
      assert e[|e| - |key|..] == key;
    }
  }

  lemma TokensSnoc(keys: seq<string>, i: nat)
    requires i < |keys|
    ensures Tokens(keys[..i + 1]) == Tokens(keys[..i]) + Token(keys[i])
  {
    assert keys[..i + 1][..i] == keys[..i];
  }

  class Calculator {
    var display: string
    var equation: string

    constructor()
      ensures display == "0" && equation == ""
    {
      display := "0";
      equation := "";
    }

    /** `handleNumber`: the digit replaces a lone '0' on the display or is appended; it always joins the equation. */
    method HandleNumber(num: string)
      modifies this
      ensures old(display) == "0" ==> display == num
      ensures old(display) != "0" ==> display == old(display) + num
      ensures equation == old(equation) + num
    {
      display := if display == "0" then num else display + num;
      equation := equation + num;
    }

    /** `handleOperator`: the display goes back to '0' and the operator joins the equation between spaces. */
    method HandleOperator(op: string)
      modifies this
      ensures display == "0"
      ensures equation == old(equation) + " " + op + " "
    {
      display := "0";
      equation := equation + " " + op + " ";
    }

    /** `calculate`: the result replaces both strings; when evaluation throws, the display reads 'Error' and the equation is emptied. */
    method Calculate(evaluate: string -> Option<string>)
      modifies this
      ensures evaluate(old(equation)).Some? ==> display == equation == evaluate(old(equation)).value
      ensures evaluate(old(equation)).None? ==> display == "Error" && equation == ""
    {
      match evaluate(equation)
      case Some(result) =>
        display := result;
        equation := result;
      case None =>
        display := "Error";
        equation := "";
    }

    /** `clear`. */
    method Clear()
      modifies this
      ensures display == "0" && equation == ""
    {
      display := "0";
      equation := "";
    }

    /** A key press: '=' calculates, the four operator keys go to `handleOperator`, every other key is a number. */
    method Press(key: string, evaluate: string -> Option<string>)
      modifies this
      ensures key == "=" ==> (evaluate(old(equation)).Some? ==> display == equation == evaluate(old(equation)).value)
      ensures key == "=" ==> (evaluate(old(equation)).None? ==> display == "Error" && equation == "")
      ensures key != "=" ==> equation == old(equation) + Token(key) && display == NextDisplay(old(display), key)
    {
      if key == "=" {
        Calculate(evaluate);
      } else {
        match OperatorOf(key)
        case Some(op) => HandleOperator(op);
        case None => HandleNumber(key);
      }
    }

    predicate DisplayTracksEquation()
      reads this
    {
      Tracks(display, equation)
    }
  }

  /** Keys other than '=' only ever append: the equation grows by the keys' tokens, in order, and the display stays in step. */
  method PressAll(c: Calculator, keys: seq<string>, evaluate: string -> Option<string>)
    requires forall k :: 0 <= k < |keys| ==> keys[k] != "="
    modifies c
    ensures c.equation == old(c.equation) + Tokens(keys)
    ensures old(c.DisplayTracksEquation()) ==> c.DisplayTracksEquation()
  {
    ghost var tracked := c.DisplayTracksEquation();
    for i := 0 to |keys|
      invariant c.equation == old(c.equation) + Tokens(keys[..i])
      invariant tracked ==> Tracks(c.display, c.equation)
    {
      if tracked {
        TracksStep(c.display, c.equation, keys[i]);
      }
      c.Press(keys[i], evaluate);
      TokensSnoc(keys, i);
      Seqs.Assoc(old(c.equation), Tokens(keys[..i]), Token(keys[i]));
    }
    assert keys[..|keys|] == keys;
  }

  /** A successful '=' leaves display and equation equal, so the tracking holds again; the error state breaks it. */
  method EqualsKeepsTracking(c: Calculator, evaluate: string -> Option<string>)
    modifies c
    ensures evaluate(old(c.equation)).Some? ==> c.DisplayTracksEquation()
    ensures evaluate(old(c.equation)).None? ==> !c.DisplayTracksEquation()
  {
    c.Press("=", evaluate);
  }

  /** After an error the display still reads 'Error', so the next digit is appended to it: "Error" then '5' shows "Error5". */
  method DigitAfterError(c: Calculator, evaluate: string -> Option<string>)
    requires evaluate(c.equation).None?
    modifies c
    ensures c.display == "Error5" && c.equation == "5"
  {
    c.Press("=", evaluate);
    c.Press("5", evaluate);
  }
}
