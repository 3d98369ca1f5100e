/**
  Decoded JSON values and the JavaScript coercions the application applies to them:
  `String(v)`, `Number(v)`, `Number.isFinite` and optional member access `v?.key`.
  Text is never parsed here: a JSON field arrives already decoded, or is marked as
  absent or malformed.
 */
module Json {
  import opened Wrappers
  import opened Text

  /** A JavaScript number: a finite value, or one of NaN / Infinity / -Infinity. */
  datatype Num = Finite(value: real) | NonFinite

  /** A decoded JSON value. A number keeps its decimal form: `digits / 10^scale`. */
  datatype Json =
    | JNull
    | JBool(b: bool)
    | JNum(digits: int, scale: nat)
    | JStr(s: string)
    | JArr(elems: seq<Json>)
    | JObj(fields: map<string, Json>)

  /** A string field that should hold JSON text, after `JSON.parse`:
      missing or empty, not valid JSON (the parse throws), or decoded. */
  datatype JsonText = Absent | Malformed | Parsed(value: Json)

  function Pow10(n: nat): (r: nat)
    ensures r >= 1
  {
    if n == 0 then 1 else 10 * Pow10(n - 1)
  }

  function DecimalValue(digits: int, scale: nat): real {
    digits as real / Pow10(scale) as real
  }

  /** `v?.key`: only objects have members; anything else yields `undefined`. */
  function Member(v: Json, key: string): Option<Json> {
    if v.JObj? && key in v.fields then Some(v.fields[key]) else None
  }

  // ---------------------------------------------------------------------------
  // String(v)

  /** Strips trailing zeros of the fraction, as JavaScript's shortest rendering does. */
  function Normalize(digits: int, scale: nat): (r: (int, nat))
    ensures DecimalValue(r.0, r.1) == DecimalValue(digits, scale)
    ensures r.1 <= scale
    decreases scale
  {
    if scale > 0 && digits % 10 == 0 then
      assert DecimalValue(digits / 10, scale - 1) == DecimalValue(digits, scale) by {
        assert digits == (digits / 10) * 10;
        assert Pow10(scale) == 10 * Pow10(scale - 1);
      }
      Normalize(digits / 10, scale - 1)
    else (digits, scale)
  }

  /** `a / 10^k`, one digit at a time. */
  function WholePart(a: nat, k: nat): nat {
    if k == 0 then a else WholePart(a / 10, k - 1)
  }

  function FractionPart(a: nat, k: nat): nat {
    a % Pow10(k)
  }

  /** `String(n)` for a JSON number written in plain positional notation. */
  function NumberText(digits: int, scale: nat): (r: string)
    ensures r != ""
  {
    var n := Normalize(digits, scale);
    var d: int, k: nat := n.0, n.1;
    var a: nat := if d < 0 then -d else d;
    var sign := if d < 0 then "-" else "";
    if k == 0 then sign + NatText(a)
    else
      sign + NatText(WholePart(a, k)) + "." + PaddedNat(FractionPart(a, k), k)
  }

  /** `String(v)`. Inside an array, `null` renders as the empty string (`Array.prototype.join`). */
  function StringOf(v: Json): (r: string)
    ensures v.JStr? ==> r == v.s
    ensures v.JNull? || v.JBool? || v.JNum? || v.JObj? ==> r != ""
  {
    match v
    case JNull => "null"
    case JBool(b) => if b then "true" else "false"
    case JNum(d, k) => NumberText(d, k)
    case JStr(s) => s
    case JArr(elems) =>
      Join(seq(|elems|, i requires 0 <= i < |elems| => if elems[i].JNull? then "" else StringOf(elems[i])), ",")
    case JObj(_) => "[object Object]"
  }

  /** `String(v ?? "")` for a member that may be missing: missing and `null` give "". */
  function StringOrEmpty(m: Option<Json>): (r: string)
    ensures m.None? || m == Some(JNull) ==> r == ""
    ensures m.Some? && m.value.JStr? ==> r == m.value.s
  {
    match m
    case None => ""
    case Some(JNull) => ""
    case Some(v) => StringOf(v)
  }

  // ---------------------------------------------------------------------------
  // Number(v): ECMAScript's StringToNumber (section 7.1.4.1.1 of ECMA-262), read by position

  predicate IsDigit(c: char) {
    '0' <= c <= '9'
  }

  predicate AllDigits(s: string) {
    forall i :: 0 <= i < |s| ==> IsDigit(s[i])
  }

  /** The value of a digit in bases up to 16, or 16 for any other character. */
  function HexDigit(c: char): nat {
    if '0' <= c <= '9' then c as nat - '0' as nat
    else if 'a' <= c <= 'f' then c as nat - 'a' as nat + 10
    else if 'A' <= c <= 'F' then c as nat - 'A' as nat + 10
    else 16
  }

  /** The value of the digits `t[i..j]` in base `radix`. */
  function DigitsIn(t: string, i: nat, j: nat, radix: nat): nat
    requires i <= j <= |t|
    decreases j - i
  {
    if j == i then 0 else radix * DigitsIn(t, i, j - 1, radix) + HexDigit(t[j - 1])
  }

  /** The end of the run of base-`radix` digits that starts at `i`, looking no further than `j`. */
  function DigitsEnd(t: string, i: nat, j: nat, radix: nat): (k: nat)
    requires i <= j <= |t|
    ensures i <= k <= j
    decreases j - i
  {
    if i < j && HexDigit(t[i]) < radix then DigitsEnd(t, i + 1, j, radix) else i
  }

  /** The decimal value of a run of digits. */
  function DigitsValue(s: string): nat {
    DigitsIn(s, 0, |s|, 10)
  }

  /** `m * 10^e` for a possibly negative exponent. */
  function ScaleBy(m: real, e: int): real {
    if e >= 0 then m * Pow10(e) as real else m / Pow10(-e) as real
  }

  /** `t[i..j]` as the part of a `StrUnsignedDecimalLiteral` before its exponent: `D+`, `D+.`,
      `D+.D+` or `.D+`. The value is the integer digits plus the fraction digits scaled down. */
  function Mantissa(t: string, i: nat, j: nat): Option<real>
    requires i <= j <= |t|
  {
    var k := DigitsEnd(t, i, j, 10);
    if k == j then
      if k > i then Some(DigitsIn(t, i, j, 10) as real) else None
    else if t[k] == '.' && DigitsEnd(t, k + 1, j, 10) == j && (k > i || k + 1 < j) then
      Some(DigitsIn(t, i, k, 10) as real + DecimalValue(DigitsIn(t, k + 1, j, 10), j - k - 1))
    else None
  }

  /** `t[i..]` as the `ExponentPart` after its `e` or `E`: an optionally signed run of digits. */
  function Exponent(t: string, i: nat): Option<int>
    requires i <= |t|
  {
    if i < |t| && (t[i] == '+' || t[i] == '-') then
      if i + 1 < |t| && DigitsEnd(t, i + 1, |t|, 10) == |t| then
        Some(if t[i] == '-' then -(DigitsIn(t, i + 1, |t|, 10) as int) else DigitsIn(t, i + 1, |t|, 10))
      else None
    else if i < |t| && DigitsEnd(t, i, |t|, 10) == |t| then Some(DigitsIn(t, i, |t|, 10))
    else None
  }

  /** The index of the first `e` or `E` from `i` on, or the length when there is none. */
  function ExponentMark(t: string, i: nat): (j: nat)
    requires i <= |t|
    ensures i <= j <= |t|
    decreases |t| - i
  {
    if i == |t| || t[i] == 'e' || t[i] == 'E' then i else ExponentMark(t, i + 1)
  }

  /** `t[i..]` as a `StrUnsignedDecimalLiteral` other than `Infinity` (which `Number` maps to a
      non-finite value anyway): a mantissa, then optionally `e` or `E` and an exponent. */
  function UnsignedDecimal(t: string, i: nat): Option<real>
    requires i <= |t|
  {
    var j := ExponentMark(t, i);
    if j == |t| then Mantissa(t, i, |t|)
    else
      match (Mantissa(t, i, j), Exponent(t, j + 1))
      case (Some(m), Some(e)) => Some(ScaleBy(m, e))
      case _ => None
  }

  /** The base a `0x`, `0o` or `0b` prefix letter announces. */
  function RadixOf(c: char): Option<nat> {
    if c == 'x' || c == 'X' then Some(16)
    else if c == 'o' || c == 'O' then Some(8)
    else if c == 'b' || c == 'B' then Some(2)
    else None
  }

  /** A `NonDecimalIntegerLiteral`: `0x`, `0o` or `0b` followed by at least one digit of that
      base. It takes no sign. */
  function RadixLiteral(t: string): Option<nat> {
    if |t| > 2 && t[0] == '0' && RadixOf(t[1]).Some? && DigitsEnd(t, 2, |t|, RadixOf(t[1]).value) == |t| then
      Some(DigitsIn(t, 2, |t|, RadixOf(t[1]).value))
    else None
  }

  /** A `StrDecimalLiteral`: an unsigned decimal literal, optionally after `+` or `-`. */
  function SignedDecimal(t: string): Option<real>
    requires t != []
  {
    if t[0] == '+' || t[0] == '-' then
      match UnsignedDecimal(t, 1)
      case Some(v) => Some(if t[0] == '-' then -v else v)
      case None => None
    else UnsignedDecimal(t, 0)
  }

  /** `Number(s)` for a string: the trimmed text is blank (0), a `0x`/`0o`/`0b` integer, or an
      optionally signed decimal literal with an optional fraction and exponent; anything else,
      `Infinity` included, is not a finite number. */
  function NumberFromText(s: string): (r: Num)
    ensures AllSpace(s) ==> r == Finite(0.0)
  {
    var t := Trim(s);
    if t == [] then Finite(0.0)
    else if RadixLiteral(t).Some? then Finite(RadixLiteral(t).value as real)
    else if SignedDecimal(t).Some? then Finite(SignedDecimal(t).value)
    else NonFinite
  }

  // ---------------------------------------------------------------------------
  // the forms Number reads

  /** A run of digits that reaches `j` ends at `j`. */
  lemma {:induction false} DigitsEndAll(t: string, i: nat, j: nat, radix: nat)
    requires i <= j <= |t|
    requires forall k :: i <= k < j ==> HexDigit(t[k]) < radix
    ensures DigitsEnd(t, i, j, radix) == j
    decreases j - i
  {
    if i < j {
      DigitsEndAll(t, i + 1, j, radix);
    }
  }

  /** A run of digits followed by a non-digit ends there. */
  lemma {:induction false} DigitsEndStop(t: string, i: nat, k: nat, j: nat, radix: nat)
    requires i <= k < j <= |t|
    requires forall n :: i <= n < k ==> HexDigit(t[n]) < radix
    requires HexDigit(t[k]) >= radix
    ensures DigitsEnd(t, i, j, radix) == k
    decreases k - i
  {
    if i < k {
      DigitsEndStop(t, i + 1, k, j, radix);
    }
  }

  /** Equal characters read as equal digit values. */
  lemma {:induction false} DigitsShift(t: string, i: nat, u: string, d: nat, n: nat, radix: nat)
    requires i + n <= |t| && d + n <= |u|
    requires forall k :: i <= k < i + n ==> t[k] == u[k - i + d]
    ensures DigitsIn(t, i, i + n, radix) == DigitsIn(u, d, d + n, radix)
  {
    if n > 0 {
      DigitsShift(t, i, u, d, n - 1, radix);
      assert t[i + n - 1] == u[i + n - 1 - i + d];
    }
  }

  /** Text without `e` or `E` from `i` on has no exponent mark. */
  lemma {:induction false} ExponentMarkAbsent(t: string, i: nat)
    requires i <= |t|
    requires forall k :: i <= k < |t| ==> t[k] != 'e' && t[k] != 'E'
    ensures ExponentMark(t, i) == |t|
    decreases |t| - i
  {
    if i < |t| {
      ExponentMarkAbsent(t, i + 1);
    }
  }

  /** The first `e` or `E` from `i` on is the exponent mark. */
  lemma {:induction false} ExponentMarkAt(t: string, i: nat, j: nat)
    requires i <= j < |t| && (t[j] == 'e' || t[j] == 'E')
    requires forall k :: i <= k < j ==> t[k] != 'e' && t[k] != 'E'
    ensures ExponentMark(t, i) == j
    decreases j - i
  {
    if i < j {
      ExponentMarkAt(t, i + 1, j);
    }
  }

  /** Text that is its own trim, starts with neither sign nor a base prefix, and is a decimal
      literal reads as that literal. */
  lemma UnsignedNumber(t: string, v: real)
    requires t != [] && Trim(t) == t && t[0] != '+' && t[0] != '-' && RadixLiteral(t).None?
    requires UnsignedDecimal(t, 0) == Some(v)
    ensures NumberFromText(t) == Finite(v)
  {
  }

  /** `Number("d")` for a run of digits is its decimal value. */
  lemma DigitsNumber(s: string)
    requires s != [] && AllDigits(s)
    ensures NumberFromText(s) == Finite(DigitsValue(s) as real)
  {
    TrimKeeps(s);
    ExponentMarkAbsent(s, 0);
    DigitsEndAll(s, 0, |s|, 10);
    assert |s| > 2 ==> IsDigit(s[1]);
    UnsignedNumber(s, DigitsValue(s) as real);
  }

  /** `Number("a.b")`, `Number("a.")` and `Number(".b")`: the integer digits plus the fraction
      digits scaled down. */
  lemma FractionForm(a: string, b: string)
    requires AllDigits(a) && AllDigits(b) && |a| + |b| > 0
    ensures NumberFromText(a + "." + b) == Finite(DigitsValue(a) as real + DecimalValue(DigitsValue(b), |b|))
  {
    var t := a + "." + b;
    FractionText(a, b, t);
    FractionParts(a, b, t);
    UnsignedNumber(t, DigitsValue(a) as real + DecimalValue(DigitsValue(b), |b|));
  }

  /** The characters of the text `a.b`. */
  lemma FractionText(a: string, b: string, t: string)
    requires AllDigits(a) && AllDigits(b) && |a| + |b| > 0 && t == a + "." + b
    ensures |t| == |a| + |b| + 1 && t[|a|] == '.'
    ensures forall k :: 0 <= k < |a| ==> t[k] == a[k]
    ensures forall k :: |a| + 1 <= k < |t| ==> t[k] == b[k - |a| - 1]
    ensures !IsSpace(t[0]) && !IsSpace(t[|t| - 1]) && t[0] != '+' && t[0] != '-'
    ensures RadixLiteral(t).None?
  {
  }

  /** The pieces `Number` reads from a text of the fraction shape. */
  lemma FractionParts(a: string, b: string, t: string)
    requires AllDigits(a) && AllDigits(b) && |a| + |b| > 0
    requires |t| == |a| + |b| + 1 && t[|a|] == '.'
    requires forall k :: 0 <= k < |a| ==> t[k] == a[k]
    requires forall k :: |a| + 1 <= k < |t| ==> t[k] == b[k - |a| - 1]
    requires !IsSpace(t[0]) && !IsSpace(t[|t| - 1])
    ensures Trim(t) == t
    ensures UnsignedDecimal(t, 0) == Some(DigitsValue(a) as real + DecimalValue(DigitsValue(b), |b|))
  {
    TrimKeeps(t);
    assert forall k :: 0 <= k < |t| ==> t[k] != 'e' && t[k] != 'E' by {
      forall k | 0 <= k < |t|
        ensures t[k] != 'e' && t[k] != 'E'
      {
        if k < |a| {
          assert IsDigit(a[k]);
        } else if k > |a| {
          assert IsDigit(b[k - |a| - 1]);
        }
      }
    }
    ExponentMarkAbsent(t, 0);
    FractionMantissa(a, b, t);
  }

  /** The mantissa of a text of the fraction shape. */
  lemma FractionMantissa(a: string, b: string, t: string)
    requires AllDigits(a) && AllDigits(b) && |a| + |b| > 0
    requires |t| == |a| + |b| + 1 && t[|a|] == '.'
    requires forall k :: 0 <= k < |a| ==> t[k] == a[k]
    requires forall k :: |a| + 1 <= k < |t| ==> t[k] == b[k - |a| - 1]
    ensures Mantissa(t, 0, |t|) == Some(DigitsValue(a) as real + DecimalValue(DigitsValue(b), |b|))
  {
    DigitsEndStop(t, 0, |a|, |t|, 10);
    DigitsEndAll(t, |a| + 1, |t|, 10);
    DigitsShift(t, 0, a, 0, |a|, 10);
    DigitsShift(t, |a| + 1, b, 0, |b|, 10);
  }

  /** `Number("mEe")`, `Number("mE+e")` and `Number("mE-e")` for digit runs `m` and `e`: the
      mantissa scaled by the signed power of ten. */
  lemma ExponentForm(m: string, mark: char, sign: string, e: string)
    requires m != [] && AllDigits(m) && e != [] && AllDigits(e)
    requires mark == 'e' || mark == 'E'
    requires sign == "" || sign == "+" || sign == "-"
    ensures NumberFromText(m + [mark] + sign + e)
            == Finite(ScaleBy(DigitsValue(m) as real, if sign == "-" then -(DigitsValue(e) as int) else DigitsValue(e)))
  {
    var t := m + [mark] + sign + e;
    ExponentText(m, mark, sign, e, t);
    ExponentParts(m, sign, e, t);
    UnsignedNumber(t, ScaleBy(DigitsValue(m) as real, if sign == "-" then -(DigitsValue(e) as int) else DigitsValue(e)));
  }

  /** The characters of the text `mEe`, `mE+e` or `mE-e`. */
  lemma ExponentText(m: string, mark: char, sign: string, e: string, t: string)
    requires m != [] && AllDigits(m) && e != [] && AllDigits(e)
    requires mark == 'e' || mark == 'E'
    requires sign == "" || sign == "+" || sign == "-"
    requires t == m + [mark] + sign + e
    ensures |t| == |m| + 1 + |sign| + |e| && t[|m|] == mark
    ensures forall k :: 0 <= k < |m| ==> t[k] == m[k]
    ensures sign != "" ==> t[|m| + 1] == sign[0]
    ensures forall k :: |m| + 1 + |sign| <= k < |t| ==> t[k] == e[k - |m| - 1 - |sign|]
    ensures !IsSpace(t[0]) && !IsSpace(t[|t| - 1]) && t[0] != '+' && t[0] != '-'
    ensures RadixLiteral(t).None?
  {
    assert t[|t| - 1] == e[|e| - 1];
  }

  /** The pieces `Number` reads from a text of the exponent shape. */
  lemma ExponentParts(m: string, sign: string, e: string, t: string)
    requires m != [] && AllDigits(m) && e != [] && AllDigits(e)
    requires sign == "" || sign == "+" || sign == "-"
    requires |t| == |m| + 1 + |sign| + |e| && (t[|m|] == 'e' || t[|m|] == 'E')
    requires forall k :: 0 <= k < |m| ==> t[k] == m[k]
    requires sign != "" ==> t[|m| + 1] == sign[0]
    requires forall k :: |m| + 1 + |sign| <= k < |t| ==> t[k] == e[k - |m| - 1 - |sign|]
    requires !IsSpace(t[0]) && !IsSpace(t[|t| - 1])
    ensures Trim(t) == t
    ensures UnsignedDecimal(t, 0)
            == Some(ScaleBy(DigitsValue(m) as real, if sign == "-" then -(DigitsValue(e) as int) else DigitsValue(e)))
  {
    TrimKeeps(t);
    assert forall k :: 0 <= k < |m| ==> t[k] != 'e' && t[k] != 'E' by {
      forall k | 0 <= k < |m|
        ensures t[k] != 'e' && t[k] != 'E'
      {
        assert IsDigit(m[k]);
      }
    }
    ExponentMarkAt(t, 0, |m|);
    ExponentMantissa(m, t);
    ExponentValue(m, sign, e, t);
  }

  /** The digits before the mark of a text of the exponent shape. */
  lemma ExponentMantissa(m: string, t: string)
    requires m != [] && AllDigits(m) && |m| <= |t|
    requires forall k :: 0 <= k < |m| ==> t[k] == m[k]
    ensures Mantissa(t, 0, |m|) == Some(DigitsValue(m) as real)
  {
    assert forall k :: 0 <= k < |m| ==> HexDigit(t[k]) < 10 by {
      forall k | 0 <= k < |m|
        ensures HexDigit(t[k]) < 10
      {
        assert IsDigit(m[k]);
      }
    }
    DigitsEndAll(t, 0, |m|, 10);
    DigitsShift(t, 0, m, 0, |m|, 10);
    assert DigitsIn(t, 0, |m|, 10) == DigitsValue(m);
  }

  /** The signed digits after the mark of a text of the exponent shape. */
  lemma ExponentValue(m: string, sign: string, e: string, t: string)
    requires e != [] && AllDigits(e)
    requires sign == "" || sign == "+" || sign == "-"
    requires |t| == |m| + 1 + |sign| + |e|
    requires sign != "" ==> t[|m| + 1] == sign[0]
    requires forall k :: |m| + 1 + |sign| <= k < |t| ==> t[k] == e[k - |m| - 1 - |sign|]
    ensures Exponent(t, |m| + 1) == Some(if sign == "-" then -(DigitsValue(e) as int) else DigitsValue(e))
  {
    var d := |m| + 1 + |sign|;
    DigitsEndAll(t, d, |t|, 10);
    DigitsShift(t, d, e, 0, |e|, 10);
    if sign == "" {
      assert IsDigit(t[|m| + 1]) by {
        assert t[|m| + 1] == e[0];
      }
    }
  }

  /** A leading `+` leaves `Number` unchanged and a leading `-` negates it, for any text that
      is not a `0x`/`0o`/`0b` literal (those take no sign) and carries no sign of its own. */
  lemma SignForm(t: string)
    requires t != [] && !IsSpace(t[0]) && !IsSpace(t[|t| - 1])
    requires t[0] != '+' && t[0] != '-' && RadixLiteral(t).None?
    ensures NumberFromText("+" + t) == NumberFromText(t)
    ensures NumberFromText("-" + t) == match NumberFromText(t) case Finite(v) => Finite(-v) case NonFinite => NonFinite
  {
    TrimKeeps(t);
    SignedText('+', t, "+" + t);
    SignedText('-', t, "-" + t);
  }

  /** A sign in front of unsigned text: the rest reads from position 1 as the text does from 0. */
  lemma SignedText(c: char, t: string, u: string)
    requires c == '+' || c == '-'
    requires t != [] && !IsSpace(t[|t| - 1]) && u == [c] + t
    ensures u != [] && u[0] == c && Trim(u) == u && RadixLiteral(u).None?
    ensures UnsignedDecimal(u, 1) == UnsignedDecimal(t, 0)
  {
    assert u[|u| - 1] == t[|t| - 1];
    assert forall k :: 1 <= k < |u| ==> u[k] == t[k - 1];
    TrimKeeps(u);
    UnsignedShift(u, t);
  }

  /** Reading a decimal literal from position 1 of `[c] + t` is reading it from 0 of `t`. */
  lemma UnsignedShift(u: string, t: string)
    requires |u| == |t| + 1 && forall k :: 1 <= k < |u| ==> u[k] == t[k - 1]
    ensures UnsignedDecimal(u, 1) == UnsignedDecimal(t, 0)
  {
    ShiftMark(u, t, 0);
    var j := ExponentMark(t, 0);
    ShiftMantissa(u, t, 0, j);
    if j < |t| {
      ShiftExponent(u, t, j + 1);
    }
  }

  lemma {:induction false} ShiftMark(u: string, t: string, i: nat)
    requires |u| == |t| + 1 && forall k :: 1 <= k < |u| ==> u[k] == t[k - 1]
    requires i <= |t|
    ensures ExponentMark(u, i + 1) == ExponentMark(t, i) + 1
    decreases |t| - i
  {
    if i < |t| {
      ShiftMark(u, t, i + 1);
    }
  }

  lemma {:induction false} ShiftEnd(u: string, t: string, i: nat, j: nat)
    requires |u| == |t| + 1 && forall k :: 1 <= k < |u| ==> u[k] == t[k - 1]
    requires i <= j <= |t|
    ensures DigitsEnd(u, i + 1, j + 1, 10) == DigitsEnd(t, i, j, 10) + 1
    decreases j - i
  {
    if i < j {
      ShiftEnd(u, t, i + 1, j);
    }
  }

  /** A digit run read one position later in the shifted text. */
  lemma ShiftDigits(u: string, t: string, i: nat, j: nat)
    requires |u| == |t| + 1 && forall k :: 1 <= k < |u| ==> u[k] == t[k - 1]
    requires i <= j <= |t|
    ensures DigitsEnd(u, i + 1, j + 1, 10) == DigitsEnd(t, i, j, 10) + 1
    ensures DigitsIn(u, i + 1, j + 1, 10) == DigitsIn(t, i, j, 10)
  {
    ShiftEnd(u, t, i, j);
    DigitsShift(u, i + 1, t, i, j - i, 10);
  }

  lemma ShiftMantissa(u: string, t: string, i: nat, j: nat)
    requires |u| == |t| + 1 && forall k :: 1 <= k < |u| ==> u[k] == t[k - 1]
    requires i <= j <= |t|
    ensures Mantissa(u, i + 1, j + 1) == Mantissa(t, i, j)
  {
    var k := DigitsEnd(t, i, j, 10);
    ShiftDigits(u, t, i, j);
    ShiftDigits(u, t, i, k);
    if k < j {
      ShiftDigits(u, t, k + 1, j);
      assert u[k + 1] == t[k];
    }
  }

  lemma ShiftExponent(u: string, t: string, i: nat)
    requires |u| == |t| + 1 && forall k :: 1 <= k < |u| ==> u[k] == t[k - 1]
    requires i <= |t|
    ensures Exponent(u, i + 1) == Exponent(t, i)
  {
    ShiftDigits(u, t, i, |t|);
    if i < |t| {
      ShiftDigits(u, t, i + 1, |t|);
      assert u[i + 1] == t[i];
    }
  }

  /** `Number("0x...")`, `Number("0o...")` and `Number("0b...")`: the digits read in that base. */
  lemma RadixForm(c: char, h: string)
    requires RadixOf(c).Some? && h != [] && forall k :: 0 <= k < |h| ==> HexDigit(h[k]) < RadixOf(c).value
    ensures NumberFromText("0" + [c] + h) == Finite(DigitsIn(h, 0, |h|, RadixOf(c).value) as real)
  {
    var t := "0" + [c] + h;
    RadixText(c, h, t);
    RadixDigits(c, h, t);
    assert !IsSpace(t[|t| - 1]) by {
      assert HexDigit(h[|h| - 1]) < 16;
    }
    TrimKeeps(t);
  }

  /** The shape of `"0" + [c] + h`, position by position. */
  lemma RadixText(c: char, h: string, t: string)
    requires t == "0" + [c] + h
    ensures |t| == |h| + 2 && t[0] == '0' && t[1] == c
    ensures forall k :: 2 <= k < |t| ==> t[k] == h[k - 2]
  {
  }

  /** Text `0`, a base letter and digits of that base is a base literal of the digits' value. */
  lemma RadixDigits(c: char, h: string, t: string)
    requires RadixOf(c).Some? && h != [] && forall k :: 0 <= k < |h| ==> HexDigit(h[k]) < RadixOf(c).value
    requires |t| == |h| + 2 && t[0] == '0' && t[1] == c
    requires forall k :: 2 <= k < |t| ==> t[k] == h[k - 2]
    ensures RadixLiteral(t) == Some(DigitsIn(h, 0, |h|, RadixOf(c).value))
  {
    var radix := RadixOf(c).value;
    assert forall k :: 2 <= k < |t| ==> HexDigit(t[k]) < radix by {
      forall k | 2 <= k < |t|
        ensures HexDigit(t[k]) < radix
      {
        assert t[k] == h[k - 2];
      }
    }
    DigitsEndAll(t, 2, |t|, radix);
    DigitsShift(t, 2, h, 0, |h|, radix);
  }

  /** `Number(v)`. Arrays and objects go through their string form, as in JavaScript. */
  function NumberOf(v: Json): (r: Num)
    ensures v.JNum? ==> r == Finite(DecimalValue(v.digits, v.scale))
  {
    match v
    case JNull => Finite(0.0)
    case JBool(b) => Finite(if b then 1.0 else 0.0)
    case JNum(d, k) => Finite(DecimalValue(d, k))
    case JStr(s) => NumberFromText(s)
    case _ => NumberFromText(StringOf(v))
  }

  /** `Number(v ?? 0)` for a member that may be missing. */
  function NumberOrZero(m: Option<Json>): (r: Num)
    ensures m.None? ==> r == Finite(0.0)
  {
    match m
    case None => Finite(0.0)
    case Some(v) => NumberOf(v)
  }

  /** The JSON number that `JSON.stringify` writes for an integer. */
  function IntJson(n: int): (r: Json)
    ensures NumberOf(r) == Finite(n as real)
  {
    JNum(n, 0)
  }
}
