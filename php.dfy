/** PHP runtime values and the few PHP built-ins that the persistence layer and the
    controllers rely on: empty(), isset(), is_numeric(), is_string(), gettype(), lcfirst(),
    and the coercions PHP (coercive typing mode, PHP 8) applies when a value is passed to a
    parameter declared `int` or `string`. */
module Php {

  /** A PHP value as it travels through request bodies, rows and model properties.
      `Obj` is a hydrated entity object; the persistence layer only ever asks it for getId(),
      so only that identity is kept. */
  datatype Value =
    | Null
    | Bool(b: bool)
    | Int(i: int)
    | Double(d: real)
    | Str(s: string)
    | Obj(id: int)

  /** The result of a PHP call that either returns a value or throws with a message. */
  datatype Outcome<T> = Done(value: T) | Thrown(message: string)

  datatype Option<T> = None | Some(value: T)

  /** PHP's empty(): null, false, 0, 0.0, "" and "0" are empty. */
  predicate Empty(v: Value)
  {
    match v
    case Null => true
    case Bool(b) => !b
    case Int(i) => i == 0
    case Double(d) => d == 0.0
    case Str(s) => s == "" || s == "0"
    case Obj(_) => false
  }

  /** `$m[$k]` read inside empty() or `??`: a missing key reads as null. */
  function Get(m: map<string, Value>, k: string): (v: Value)
    ensures k !in m ==> v == Null
    ensures k in m ==> v == m[k]
  {
    if k in m then m[k] else Null
  }

  /** PHP's isset($m[$k]): the key is present and its value is not null. */
  predicate IsSet(m: map<string, Value>, k: string)
  {
    k in m && m[k] != Null
  }

  /** PHP's gettype(). Floats are reported as "double", never as "float". */
  function GetType(v: Value): (t: string)
    ensures t != "float"
    ensures t == "integer" <==> v.Int?
  {
    match v
    case Null => "NULL"
    case Bool(_) => "boolean"
    case Int(_) => "integer"
    case Double(_) => "double"
    case Str(_) => "string"
    case Obj(_) => "object"
  }

  predicate IsString(v: Value) { v.Str? }

  predicate IsUpper(c: char) { 'A' <= c <= 'Z' }

  predicate IsLower(c: char) { 'a' <= c <= 'z' }

  predicate IsLetter(c: char) { IsUpper(c) || IsLower(c) }

  predicate IsDigit(c: char) { '0' <= c <= '9' }

  /** The whitespace PHP skips around numeric strings. */
  predicate IsWhitespace(c: char) { c == ' ' || c == '\t' || c == '\n' || c == '\r' || c == '\U{B}' || c == '\U{C}' }

  function ToLower(c: char): (d: char)
    ensures IsUpper(c) ==> IsLower(d)
    ensures !IsUpper(c) ==> d == c
  {
    if IsUpper(c) then (c as int - 'A' as int + 'a' as int) as char else c
  }

  /** PHP's lcfirst(): lower-cases the first character only. */
  function LcFirst(s: string): (r: string)
    ensures |r| == |s|
    ensures 0 < |s| ==> r[0] == ToLower(s[0]) && r[1..] == s[1..]
  {
    if |s| == 0 then s else [ToLower(s[0])] + s[1..]
  }

  /** The first index at or after i whose character does not satisfy the digit test. */
  function DigitsEnd(s: string, i: nat): (j: nat)
    requires i <= |s|
    ensures i <= j <= |s|
    ensures forall k :: i <= k < j ==> IsDigit(s[k])
    ensures j < |s| ==> !IsDigit(s[j])
    decreases |s| - i
  {
    if i < |s| && IsDigit(s[i]) then DigitsEnd(s, i + 1) else i
  }

  /** The first index at or after i that is not whitespace. */
  function SpacesEnd(s: string, i: nat): (j: nat)
    requires i <= |s|
    ensures i <= j <= |s|
    ensures forall k :: i <= k < j ==> IsWhitespace(s[k])
    ensures j < |s| ==> !IsWhitespace(s[j])
    decreases |s| - i
  {
    if i < |s| && IsWhitespace(s[i]) then SpacesEnd(s, i + 1) else i
  }

  /** Index just after an optional sign at i. */
  function SignEnd(s: string, i: nat): (j: nat)
    requires i <= |s|
    ensures i <= j <= |s|
  {
    if i < |s| && (s[i] == '+' || s[i] == '-') then i + 1 else i
  }

  /** PHP 8's numeric strings: optional leading whitespace, an optional sign, digits with an
      optional fraction (at least one digit in all), an optional exponent, optional trailing
      whitespace. */
  predicate IsNumericString(s: string)
  {
    var i := SignEnd(s, SpacesEnd(s, 0));
    var intEnd := DigitsEnd(s, i);
    var fracEnd := if intEnd < |s| && s[intEnd] == '.' then DigitsEnd(s, intEnd + 1) else intEnd;
    var mantissaDigits := (intEnd - i) + (if fracEnd > intEnd then fracEnd - intEnd - 1 else 0);
    var expEnd :=
      if fracEnd < |s| && (s[fracEnd] == 'e' || s[fracEnd] == 'E')
         && DigitsEnd(s, SignEnd(s, fracEnd + 1)) > SignEnd(s, fracEnd + 1)
      then DigitsEnd(s, SignEnd(s, fracEnd + 1))
      else fracEnd;
    mantissaDigits > 0 && SpacesEnd(s, expEnd) == |s|
  }

  /** PHP's is_numeric(). */
  predicate IsNumeric(v: Value)
  {
    match v
    case Int(_) => true
    case Double(_) => true
    case Str(s) => IsNumericString(s)
    case _ => false
  }

  /** Integer-valued numeric strings: whitespace, an optional sign, digits, whitespace. */
  predicate IsIntegerString(s: string)
  {
    var i := SignEnd(s, SpacesEnd(s, 0));
    var j := DigitsEnd(s, i);
    j > i && SpacesEnd(s, j) == |s|
  }

  /** The value of the decimal digits s[i..j]. */
  function DigitsValue(s: string, i: nat, j: nat): nat
    requires i <= j <= |s|
    requires forall k :: i <= k < j ==> IsDigit(s[k])
    decreases j - i
  {
    if i == j then 0
    else
      assert IsDigit(s[j - 1]);
      10 * DigitsValue(s, i, j - 1) + (s[j - 1] as int - '0' as int)
  }

  function ParseIntegerString(s: string): int
    requires IsIntegerString(s)
  {
    var start := SpacesEnd(s, 0);
    var i := SignEnd(s, start);
    var n: int := DigitsValue(s, i, DigitsEnd(s, i));
    if i > start && s[start] == '-' then -n else n
  }

  function DigitChar(d: nat): (c: char)
    requires d < 10
    ensures IsDigit(c)
  {
    ('0' as int + d) as char
  }

  function NatToString(n: nat): (s: string)
    ensures 0 < |s|
    ensures forall k :: 0 <= k < |s| ==> IsDigit(s[k])
  {
    if n < 10 then [DigitChar(n)] else NatToString(n / 10) + [DigitChar(n % 10)]
  }

  /** How PHP interpolates an int into a string ("$id"). */
  function IntToString(i: int): string
  {
    if i < 0 then "-" + NatToString(-i) else NatToString(i)
  }

  /** The digits s[i..j] have the value of the same digits standing alone. */
  lemma {:induction false} DigitsValueOf(s: string, i: nat, j: nat, t: string)
    requires i <= j <= |s| && s[i..j] == t
    requires forall k :: i <= k < j ==> IsDigit(s[k])
    ensures forall k :: 0 <= k < |t| ==> IsDigit(t[k])
    ensures DigitsValue(s, i, j) == DigitsValue(t, 0, |t|)
    decreases j - i
  {
    assert forall k :: 0 <= k < |t| ==> t[k] == s[i + k];
    if i < j {
      var u := t[..|t| - 1];
      assert s[i..j - 1] == u;
      DigitsValueOf(s, i, j - 1, u);
      DigitsValueOf(t, 0, |t| - 1, u);
    }
  }

  /** Reading back the digits of a natural number gives the number. */
  lemma {:induction false} NatToStringValue(n: nat)
    ensures DigitsValue(NatToString(n), 0, |NatToString(n)|) == n
  {
    var s := NatToString(n);
    if n >= 10 {
      var t := NatToString(n / 10);
      assert s == t + [DigitChar(n % 10)];
      assert s[0..|t|] == t;
      DigitsValueOf(s, 0, |t|, t);
      NatToStringValue(n / 10);
    }
  }

  /** A run of digits reaching the end of s ends there. */
  lemma {:induction false} DigitsReachEnd(s: string, i: nat)
    requires i <= |s|
    requires forall k :: i <= k < |s| ==> IsDigit(s[k])
    ensures DigitsEnd(s, i) == |s|
    decreases |s| - i
  {
    if i < |s| {
      DigitsReachEnd(s, i + 1);
    }
  }

  /** An interpolated int is an integer string that parses back to the int. */
  lemma IntToStringParses(i: int)
    ensures IsIntegerString(IntToString(i))
    ensures ParseIntegerString(IntToString(i)) == i
  {
    var s := IntToString(i);
    if i < 0 {
      var t := NatToString(-i);
      assert s == "-" + t;
      assert !IsWhitespace(s[0]);
      assert SpacesEnd(s, 0) == 0;
      assert SignEnd(s, 0) == 1;
      DigitsReachEnd(s, 1);
      assert s[1..|s|] == t;
      DigitsValueOf(s, 1, |s|, t);
      NatToStringValue(-i);
    } else {
      assert !IsWhitespace(s[0]);
      assert SpacesEnd(s, 0) == 0;
      DigitsReachEnd(s, 0);
      assert s[0..|s|] == s;
      NatToStringValue(i);
    }
  }

  /** The bounds of PHP's 64-bit int. */
  const LongMin: int := -0x8000_0000_0000_0000
  const LongMax: int := 0x7FFF_FFFF_FFFF_FFFF

  predicate InLongRange(i: int)
  {
    LongMin <= i <= LongMax
  }

  /** The int a value becomes when passed to a parameter declared `int`; None stands for the
      TypeError PHP throws. A string or float whose value does not fit a 64-bit int is
      refused. */
  function IntParam(v: Value): (r: Option<int>)
    ensures v.Int? ==> r == Some(v.i)
    ensures v.Null? || v.Obj? ==> r.None?
    ensures (v.Str? || v.Double?) && r.Some? ==> InLongRange(r.value)
  {
    match v
    case Int(i) => Some(i)
    case Bool(b) => Some(if b then 1 else 0)
    case Str(s) =>
      if IsIntegerString(s) && InLongRange(ParseIntegerString(s)) then Some(ParseIntegerString(s)) else None
    case Double(d) => if d == d.Floor as real && InLongRange(d.Floor) then Some(d.Floor) else None
    case _ => None
  }

  /** The string a value becomes when passed to a parameter declared `string`; None stands for
      the TypeError PHP throws. */
  function StringParam(v: Value): (r: Option<string>)
    ensures v.Str? ==> r == Some(v.s)
    ensures v.Null? || v.Obj? ==> r.None?
  {
    match v
    case Str(s) => Some(s)
    case Int(i) => Some(IntToString(i))
    case Bool(b) => Some(if b then "1" else "")
    case _ => None
  }
}
