/**
 * The few pieces of Python's run-time behaviour that the handlers depend on:
 * the scalar values a decoded event can hold, their truthiness, `str()`,
 * `str.lower()` and `int()` on a decimal string.
 */
module PyValues {
  import opened Wrappers

  /** A scalar as it sits in a decoded event dictionary. */
  datatype Value = VStr(s: string) | VInt(i: int) | VBool(b: bool) | VNone

  /** `dict.get(key)`: a missing key reads as None. */
  function Get(m: map<string, Value>, key: string): Value {
    if key in m then m[key] else VNone
  }

  /** Python truthiness: empty strings, zero, False and None are false. */
  predicate Truthy(v: Value) {
    match v
    case VStr(s) => s != ""
    case VInt(i) => i != 0
    case VBool(b) => b
    case VNone => false
  }

  /** `type(v).__name__`, as it appears in an AttributeError message. */
  function TypeName(v: Value): string {
    match v
    case VStr(_) => "str"
    case VInt(_) => "int"
    case VBool(_) => "bool"
    case VNone => "NoneType"
  }

  /** The text of the AttributeError raised by `v.lower()` on a non-string. */
  function NoLowerError(v: Value): (msg: string)
    requires !v.VStr?
    ensures |msg| > |TypeName(v)|
  {
    "'" + TypeName(v) + "' object has no attribute 'lower'"
  }

  // ---- decimal digits ----

  predicate IsDigit(c: char) { '0' <= c <= '9' }

  function DigitChar(d: nat): (c: char)
    requires d < 10
    ensures IsDigit(c) && DigitValue(c) == d
  {
    ('0' as int + d) as char
  }

  function DigitValue(c: char): nat
    requires IsDigit(c)
  {
    c as int - '0' as int
  }

  /** `str(n)` for a non-negative integer: its shortest decimal spelling. */
  function NatToString(n: nat): (s: string)
    ensures |s| > 0 && (forall i :: 0 <= i < |s| ==> IsDigit(s[i]))
    ensures |s| > 1 ==> s[0] != '0'
  {
    if n < 10 then [DigitChar(n)] else NatToString(n / 10) + [DigitChar(n % 10)]
  }

  /** `str(i)` for any integer. */
  function IntToString(i: int): (s: string)
    ensures s != ""
  {
    if i < 0 then "-" + NatToString(-i) else NatToString(i)
  }

  function DigitsValue(s: string): nat
    requires forall i :: 0 <= i < |s| ==> IsDigit(s[i])
  {
    if s == [] then 0 else DigitsValue(s[..|s| - 1]) * 10 + DigitValue(s[|s| - 1])
  }

  /**
   * `int(s)` restricted to plain decimal digits: None where Python would
   * raise ValueError.
   */
  function ParseNat(s: string): (r: Option<nat>)
    ensures r.Some? <==> s != "" && forall i :: 0 <= i < |s| ==> IsDigit(s[i])
  {
    if s != "" && forall i :: 0 <= i < |s| ==> IsDigit(s[i]) then Some(DigitsValue(s)) else None
  }

  /** Reading back `str(n)` gives `n`. */
  lemma {:induction false} ParseNatToString(n: nat)
    ensures ParseNat(NatToString(n)) == Some(n)
  {
    DigitsOfNatToString(n);
  }

  lemma {:induction false} DigitsOfNatToString(n: nat)
    ensures DigitsValue(NatToString(n)) == n
  {
    var s := NatToString(n);
    if n < 10 {
      assert s[..|s| - 1] == [];
    } else {
      DigitsOfNatToString(n / 10);
      assert s[..|s| - 1] == NatToString(n / 10);
    }
  }

  /** `str(v)` as an f-string renders it. */
  function Str(v: Value): string {
    match v
    case VStr(s) => s
    case VInt(i) => IntToString(i)
    case VBool(b) => if b then "True" else "False"
    case VNone => "None"
  }

  // ---- case folding ----

  function LowerChar(c: char): char {
    if 'A' <= c <= 'Z' then (c as int + 32) as char else c
  }

  /** `s.lower()` on the ASCII letters. */
  function Lower(s: string): (r: string)
    ensures |r| == |s|
    ensures forall i :: 0 <= i < |s| ==> r[i] == LowerChar(s[i])
  {
    seq(|s|, i requires 0 <= i < |s| => LowerChar(s[i]))
  }

  /** "completed", "Completed" and "COMPLETED" all count as completed. */
  lemma CompletedInAnyCase(s: string)
    ensures Lower(s) == "completed" <==>
      |s| == 9 && forall i :: 0 <= i < 9 ==> s[i] == "completed"[i] || s[i] == "COMPLETED"[i]
  {
  }
}
