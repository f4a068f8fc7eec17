/**
 * The money-expression input behind the keypad: the expression typed so far,
 * the value shown when it is blank, and the validation that turns the
 * expression into an amount or an error.
 */
module MoneyInputs {
  import opened Wrappers
  import opened Money
  import opened Keypads

  /** `String.split(vararg delimiters: Char)`: the pieces between delimiters, empty ones kept. */
  function Split(s: string, delims: set<char>): (r: seq<string>)
    ensures |r| >= 1
  {
    if s == [] then [[]]
    else
      var rest := Split(s[1..], delims);
      if s[0] in delims then [[]] + rest else [[s[0]] + rest[0]] + rest[1..]
  }

  function DelimiterCount(s: string, delims: set<char>): nat
  {
    if s == [] then 0 else (if s[0] in delims then 1 else 0) + DelimiterCount(s[1..], delims)
  }

  function Without(s: string, delims: set<char>): string
  {
    if s == [] then [] else (if s[0] in delims then [] else [s[0]]) + Without(s[1..], delims)
  }

  function Concat(ps: seq<string>): string
  {
    if ps == [] then [] else ps[0] + Concat(ps[1..])
  }

  predicate Free(s: string, delims: set<char>)
  {
    forall i :: 0 <= i < |s| ==> s[i] !in delims
  }

  /**
   * Splitting gives one more piece than there are delimiters, no piece holds a
   * delimiter, and the pieces put together are the text with the delimiters
   * taken out.
   */
  lemma {:induction false} SplitSpec(s: string, delims: set<char>)
    ensures |Split(s, delims)| == DelimiterCount(s, delims) + 1
    ensures forall i :: 0 <= i < |Split(s, delims)| ==> Free(Split(s, delims)[i], delims)
    ensures Concat(Split(s, delims)) == Without(s, delims)
  {
    if s != [] {
      var rest := Split(s[1..], delims);
      SplitSpec(s[1..], delims);
      if s[0] !in delims {
        var r := Split(s, delims);
        assert r == [[s[0]] + rest[0]] + rest[1..];
        assert forall i :: 1 <= i < |r| ==> r[i] == rest[i];
        assert Concat(rest) == rest[0] + Concat(rest[1..]);
        assert Concat(r) == ([s[0]] + rest[0]) + Concat(rest[1..]);
      } else {
        var r := Split(s, delims);
        assert forall i :: 1 <= i < |r| ==> r[i] == rest[i - 1];
        assert Concat(r) == [] + Concat(rest);
      }
    }
  }

  /** Text without a delimiter is a single piece. */
  lemma {:induction false} SplitFree(w: string, delims: set<char>)
    requires Free(w, delims)
    ensures Split(w, delims) == [w]
  {
    if w != [] {
      assert Free(w[1..], delims) by {
        forall i | 0 <= i < |w[1..]| ensures w[1..][i] !in delims {
          assert w[1..][i] == w[i + 1];
        }
      }
      SplitFree(w[1..], delims);
      assert [w[0]] + w[1..] == w;
    }
  }

  /** Text up to the first delimiter is the first piece, and the rest splits on its own. */
  lemma {:induction false} SplitAtFirst(w: string, c: char, rest: string, delims: set<char>)
    requires Free(w, delims) && c in delims
    ensures Split(w + [c] + rest, delims) == [w] + Split(rest, delims)
  {
    if w == [] {
      assert w + [c] + rest == [c] + rest;
      assert ([c] + rest)[1..] == rest;
    } else {
      SplitAtFirst(w[1..], c, rest, delims);
      assert (w + [c] + rest)[1..] == w[1..] + [c] + rest;
      assert [w[0]] + w[1..] == w;
    }
  }

  predicate IsDigit(c: char) { '0' <= c <= '9' }

  predicate AllDigits(s: string)
  {
    forall i :: 0 <= i < |s| ==> IsDigit(s[i])
  }

  const Ops: set<char> := {'+', '-', '*'}

  /** `\d+(\.\d{1,2})?`: digits, then optionally a dot and one or two digits. */
  predicate IsNumber(s: string)
  {
    || (|s| >= 1 && AllDigits(s))
    || (|s| >= 3 && s[|s| - 2] == '.' && AllDigits(s[..|s| - 2]) && IsDigit(s[|s| - 1]))
    || (|s| >= 4 && s[|s| - 3] == '.' && AllDigits(s[..|s| - 3]) && AllDigits(s[|s| - 2..]))
  }

  /**
   * `regex.matches(expr)` for `^\d+(\.\d{1,2})?([+\-*]\d+(\.\d{1,2})?)*$`:
   * every piece between the operators is a number.
   */
  predicate PatternMatches(s: string)
  {
    var ps := Split(s, Ops);
    forall i :: 0 <= i < |ps| ==> IsNumber(ps[i])
  }

  lemma NumberHasNoOperator(s: string)
    requires IsNumber(s)
    ensures Free(s, Ops)
  {
    forall i | 0 <= i < |s| ensures s[i] !in Ops {
      if |s| >= 3 && s[|s| - 2] == '.' && AllDigits(s[..|s| - 2]) && IsDigit(s[|s| - 1]) {
        if i < |s| - 2 { assert s[..|s| - 2][i] == s[i]; }
      } else if |s| >= 4 && s[|s| - 3] == '.' && AllDigits(s[..|s| - 3]) && AllDigits(s[|s| - 2..]) {
        if i < |s| - 3 { assert s[..|s| - 3][i] == s[i]; }
        else if i > |s| - 3 { assert s[|s| - 2..][i - (|s| - 2)] == s[i]; }
      }
    }
  }

  /** A number alone is an expression of the pattern. */
  lemma NumberMatches(s: string)
    requires IsNumber(s)
    ensures PatternMatches(s)
  {
    NumberHasNoOperator(s);
    SplitFree(s, Ops);
  }

  /** A number, an operator and an expression of the pattern make an expression of the pattern. */
  lemma ExtendMatches(s: string, k: int)
    requires 0 < k < |s| && s[k] in Ops && IsNumber(s[..k]) && PatternMatches(s[k + 1..])
    ensures PatternMatches(s)
  {
    NumberHasNoOperator(s[..k]);
    SplitAtFirst(s[..k], s[k], s[k + 1..], Ops);
    assert s[..k] + [s[k]] + s[k + 1..] == s;
  }

  /**
   * Every expression of the pattern is a number alone, or starts with a
   * number and an operator followed by an expression of the pattern: the
   * pattern read left to right as `\d+(\.\d{1,2})?([+\-*]\d+(\.\d{1,2})?)*`.
   */
  lemma MatchesShape(s: string)
    requires PatternMatches(s)
    ensures || IsNumber(s)
            || exists k :: 0 < k < |s| && s[k] in Ops && IsNumber(s[..k]) && PatternMatches(s[k + 1..])
  {
    if Free(s, Ops) {
      SplitFree(s, Ops);
      assert Split(s, Ops)[0] == s;
    } else {
      var k := FirstDelimiter(s, Ops);
      SplitAtFirst(s[..k], s[k], s[k + 1..], Ops);
      assert s[..k] + [s[k]] + s[k + 1..] == s;
      var ps := Split(s, Ops);
      assert ps[0] == s[..k];
      var rest := Split(s[k + 1..], Ops);
      assert forall i :: 0 <= i < |rest| ==> rest[i] == ps[i + 1];
      assert IsNumber(s[..k]) && PatternMatches(s[k + 1..]);
    }
  }

  /** The index of the first delimiter in text that has one. */
  function FirstDelimiter(s: string, delims: set<char>): (k: nat)
    requires !Free(s, delims)
    ensures k < |s| && s[k] in delims && Free(s[..k], delims)
  {
    if s[0] in delims then 0
    else
      assert !Free(s[1..], delims) by {
        var i :| 0 <= i < |s| && s[i] in delims;
        assert s[1..][i - 1] == s[i];
      }
      var k := FirstDelimiter(s[1..], delims);
      assert s[..k + 1] == [s[0]] + s[1..][..k];
      k + 1
  }

  /** `isBlank`: empty or nothing but whitespace, as `Char.isWhitespace` counts it. */
  predicate IsWhitespace(c: char)
  {
    || c == ' ' || c == '\t' || c == '\n' || c == '\U{B}' || c == '\U{C}' || c == '\r'
    || '\U{1C}' <= c <= '\U{1F}' || c == '\U{A0}' || c == '\U{1680}' || '\U{2000}' <= c <= '\U{200A}'
    || c == '\U{2028}' || c == '\U{2029}' || c == '\U{202F}' || c == '\U{205F}' || c == '\U{3000}'
  }

  predicate IsBlank(s: string)
  {
    forall i :: 0 <= i < |s| ==> IsWhitespace(s[i])
  }

  /** The number of factors of a product that hold a decimal point. */
  function DecimalFactors(factors: seq<string>): (n: nat)
    ensures n <= |factors|
  {
    if factors == [] then 0
    else DecimalFactors(factors[..|factors| - 1]) + (if '.' in factors[|factors| - 1] then 1 else 0)
  }

  /** An addition or subtraction term passes when it is not a product of two or more decimals. */
  predicate TermOk(part: string)
  {
    part == [] || '*' !in part || DecimalFactors(Split(part, {'*'})) <= 1
  }

  const AddSub: set<char> := {'+', '-'}

  predicate TermsOk(expr: string)
  {
    var parts := Split(expr, AddSub);
    forall i :: 0 <= i < |parts| ==> TermOk(parts[i])
  }

  datatype ExprError = InvalidExpr | DecimalProduct | InvalidValue(value: Decimal)

  /** `ExpressionData`: the amount to use, the expression, and the error if any. */
  datatype ExpressionData = ExpressionData(value: Decimal, expr: string, err: Option<ExprError>)

  /**
   * What `expressionDataFlow` emits for an expression and a default value:
   * the default for a blank expression; an error with the default for text
   * off the pattern, for a product of two decimals, and for an evaluated value
   * that is not positive or has more than two decimals; otherwise the value.
   */
  function Outcome(expr: string, defaultValue: Decimal, eval: string -> Decimal): (r: ExpressionData)
    ensures IsBlank(expr) ==> r == ExpressionData(defaultValue, "", Option.None)
    ensures !IsBlank(expr) ==> r.expr == expr
    ensures r.err.Some? ==> r.value == defaultValue
    ensures r.err == Some(InvalidExpr) <==> !IsBlank(expr) && !PatternMatches(expr)
    ensures r.err == Some(DecimalProduct) <==> !IsBlank(expr) && PatternMatches(expr) && !TermsOk(expr)
    ensures r.err.None? <==>
              || IsBlank(expr)
              || (PatternMatches(expr) && TermsOk(expr) && Value(eval(expr)) > 0.0 && StrippedScale(eval(expr)) <= 2)
    ensures r.err.None? && !IsBlank(expr) ==> r.value == eval(expr)
  {
    if IsBlank(expr) then ExpressionData(defaultValue, "", Option.None)
    else if !PatternMatches(expr) then ExpressionData(defaultValue, expr, Some(InvalidExpr))
    else if !TermsOk(expr) then ExpressionData(defaultValue, expr, Some(DecimalProduct))
    else
      var value := eval(expr);
      if Value(value) <= 0.0 then ExpressionData(defaultValue, expr, Some(InvalidValue(value)))
      else if StrippedScale(value) > 2 then ExpressionData(defaultValue, expr, Some(InvalidValue(value)))
      else ExpressionData(value, expr, Option.None)
  }

  /** The combine step of `expressionDataFlow`, term by term as the source checks. */
  method Evaluate(expr: string, defaultValue: Decimal, eval: string -> Decimal) returns (r: ExpressionData)
    ensures r == Outcome(expr, defaultValue, eval)
  {
    if IsBlank(expr) {
      return ExpressionData(defaultValue, "", Option.None);
    }
    if !PatternMatches(expr) {
      return ExpressionData(defaultValue, expr, Some(InvalidExpr));
    }
    var parts := Split(expr, AddSub);
    for i := 0 to |parts|
      invariant forall j :: 0 <= j < i ==> TermOk(parts[j])
    {
      var part := parts[i];
      if part == [] {
        continue;
      }
      if '*' in part {
        var factors := Split(part, {'*'});
        var decimalCount := DecimalFactors(factors);
        if decimalCount > 1 {
          return ExpressionData(defaultValue, expr, Some(DecimalProduct));
        }
      }
    }
    var value := eval(expr);
    if Value(value) <= 0.0 {
      return ExpressionData(defaultValue, expr, Some(InvalidValue(value)));
    }
    if StrippedScale(value) > 2 {
      return ExpressionData(defaultValue, expr, Some(InvalidValue(value)));
    }
    return ExpressionData(value, expr, Option.None);
  }

  /** Text made only of characters the keypad types. */
  predicate KeypadText(s: string)
  {
    forall i :: 0 <= i < |s| ==> IsKeypadChar(s[i])
  }

  /** Keypad text is blank only when it is empty. */
  lemma KeypadTextBlankIffEmpty(s: string)
    requires KeypadText(s)
    ensures IsBlank(s) <==> s == []
  {
    if s != [] {
      assert IsKeypadChar(s[0]);
    }
  }

  /** Any key types keypad text, whatever digit it carries. */
  lemma {:induction false} KeyTypesKeypadText(k: Key)
    ensures KeypadText(Str(k))
  {
    if k.Digit? {
      var n := k.num;
      if n >= 0 {
        NatTextIsKeypadText(n);
      } else {
        NatTextIsKeypadText(-n);
        assert Str(k) == "-" + NatText(-n);
      }
    }
  }

  lemma NatTextIsKeypadText(n: nat)
    ensures KeypadText(NatText(n))
  {
  }

  lemma PatternTextIsNotBlank(s: string)
    requires PatternMatches(s)
    ensures !IsBlank(s)
  {
    var ps := Split(s, Ops);
    SplitSpec(s, Ops);
    assert IsNumber(ps[0]);
    assert IsDigit(ps[0][0]);
    ConcatFirst(ps);
    WithoutKeeps(s, Ops, ps[0][0]);
  }

  lemma ConcatFirst(ps: seq<string>)
    requires |ps| >= 1 && |ps[0]| >= 1
    ensures ps[0][0] in Concat(ps)
  {
    assert Concat(ps) == ps[0] + Concat(ps[1..]);
  }

  /** A character left after removing delimiters was in the text. */
  lemma {:induction false} WithoutKeeps(s: string, delims: set<char>, c: char)
    requires c in Without(s, delims)
    ensures c in s
  {
    if s != [] && c !in (if s[0] in delims then [] else [s[0]]) {
      WithoutKeeps(s[1..], delims, c);
    }
  }

  /** `MoneyInputState`: the typed expression and the default shown while it is blank. */
  class MoneyInputState {
    var expr: string
    var defaultValue: Decimal

    constructor ()
      ensures expr == [] && defaultValue == Zero
    {
      expr, defaultValue := [], Zero;
    }

    /** `appendStr`. */
    method AppendStr(str: string)
      modifies this
      ensures expr == old(expr) + str && defaultValue == old(defaultValue)
    {
      expr := expr + str;
    }

    /** `removeLastChar`: drop one character, nothing when the expression is empty. */
    method RemoveLastChar()
      modifies this
      ensures old(expr) == [] ==> expr == []
      ensures old(expr) != [] ==> expr + [old(expr)[|old(expr)| - 1]] == old(expr)
      ensures defaultValue == old(defaultValue)
    {
      if expr != [] {
        expr := expr[..|expr| - 1];
      }
    }

    /** `clear`: empty the expression; a given default replaces the old one. */
    method Clear(default: Option<Decimal>)
      modifies this
      ensures expr == []
      ensures defaultValue == if default.Some? then default.value else old(defaultValue)
    {
      expr := [];
      if default.Some? {
        defaultValue := default.value;
      }
    }

    /** What `expressionDataFlow` emits for the current state. */
    method Data(eval: string -> Decimal) returns (r: ExpressionData)
      ensures r == Outcome(expr, defaultValue, eval)
    {
      r := Evaluate(expr, defaultValue, eval);
    }

    /** A tap on a key: Backspace removes a character, other keys type their text if it is not blank. */
    method Press(key: Key)
      modifies this
      ensures key == Action(Backspace) ==>
                (old(expr) == [] ==> expr == []) && (old(expr) != [] ==> expr + [old(expr)[|old(expr)| - 1]] == old(expr))
      ensures key != Action(Backspace) ==> expr == old(expr) + (if IsBlank(Str(key)) then [] else Str(key))
      ensures KeypadText(old(expr)) ==> KeypadText(expr)
      ensures defaultValue == old(defaultValue)
    {
      if key.None? {
        return;
      }
      if key == Action(Backspace) {
        ghost var before := expr;
        RemoveLastChar();
        assert forall i :: 0 <= i < |expr| ==> expr[i] == before[i] by {
          if before != [] {
            assert expr + [before[|before| - 1]] == before;
          }
        }
        return;
      }
      var str := Str(key);
      KeyTypesKeypadText(key);
      if !IsBlank(str) {
        AppendStr(str);
      }
    }

    /** A long press: Backspace clears the expression and keeps the default. */
    method LongPress(key: Key)
      modifies this
      ensures expr == if key == Action(Backspace) then [] else old(expr)
      ensures defaultValue == old(defaultValue)
    {
      if key == Action(Backspace) {
        Clear(Option.None);
      }
    }
  }

  /** A product of a decimal and an integer matches the pattern. */
  lemma ProductExample()
    ensures PatternMatches("12.5*3")
  {
    var d := "12.5";
    assert IsNumber(d) by { assert d[..2] == "12"; }
    assert IsNumber("3");
    assert "12.5*3"[..4] == d && "12.5*3"[5..] == "3";
    NumberMatches("3");
    ExtendMatches("12.5*3", 4);
  }

  /** Three decimals do not match the pattern. */
  lemma ThreeDecimalsExample()
    ensures !PatternMatches("1.234")
  {
    var s := "1.234";
    assert Free(s, Ops);
    SplitFree(s, Ops);
    assert Split(s, Ops)[0] == s;
    assert s[1] == '.' && s[2] == '2' && s[3] == '3';
    assert !IsDigit(s[1]);
    assert !AllDigits(s);
    assert !IsNumber(s);
  }

  /** An expression may not start or end with an operator. */
  lemma OperatorAtEndExamples()
    ensures !PatternMatches("+1") && !PatternMatches("1+")
  {
    SplitAtFirst("", '+', "1", Ops);
    assert "" + ['+'] + "1" == "+1";
    SplitAtFirst("1", '+', "", Ops);
    assert "1" + ['+'] + "" == "1+";
    assert Split("+1", Ops)[0] == "";
    assert Split("1+", Ops)[1] == "";
  }
}
