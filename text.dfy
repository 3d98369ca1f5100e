/**
  String helpers shared by the model: JavaScript's `filter(Boolean).join(sep)`,
  `trim()`, `replace(/\s+/g, " ")`, `slice(-n)`, ASCII case mapping, decimal
  rendering of integers and substring search.
 */
module Text {

  /** The characters JavaScript's `\s` and `trim()` treat as white space: the WhiteSpace and
      LineTerminator code points of ECMAScript (tab, vertical tab, form feed, the byte order
      mark, the Unicode space separators, line feed, carriage return and the line and
      paragraph separators). */
  predicate IsSpace(c: char) {
    c == '\t' || c == '\U{000B}' || c == '\U{000C}' || c == ' ' || c == '\U{00A0}' || c == '\U{FEFF}'
    || c == '\U{1680}' || ('\U{2000}' <= c <= '\U{200A}') || c == '\U{202F}' || c == '\U{205F}' || c == '\U{3000}'
    || c == '\n' || c == '\r' || c == '\U{2028}' || c == '\U{2029}'
  }

  predicate AllSpace(s: string) {
    forall i :: 0 <= i < |s| ==> IsSpace(s[i])
  }

  /** Concatenation is associative; called with concrete parts so that proofs about strings
      need not rediscover it. */
  lemma AppendAssoc<T>(p: seq<T>, q: seq<T>, r: seq<T>)
    ensures p + (q + r) == (p + q) + r
  {
  }

  // ---------------------------------------------------------------------------
  // JavaScript string length

  /** A character outside the Basic Multilingual Plane, which UTF-16 stores as a surrogate pair. */
  predicate IsAstral(c: char) {
    c >= '\U{10000}'
  }

  /** JavaScript's `length`: the number of UTF-16 code units, two for an astral character. */
  function Utf16Length(s: string): (r: nat)
    ensures |s| <= r <= 2 * |s|
  {
    if s == [] then 0 else (if IsAstral(s[0]) then 2 else 1) + Utf16Length(s[1..])
  }

  /** The code-unit count equals the character count exactly when no character is astral. */
  lemma {:induction false} Utf16LengthIsCountIff(s: string)
    ensures Utf16Length(s) == |s| <==> forall i :: 0 <= i < |s| ==> !IsAstral(s[i])
  {
    if s != [] {
      Utf16LengthIsCountIff(s[1..]);
      assert forall i :: 1 <= i < |s| ==> s[i] == s[1..][i - 1];
    }
  }

  /** The code-unit count adds up over concatenation. */
  lemma {:induction false} Utf16LengthAppend(a: string, b: string)
    ensures Utf16Length(a + b) == Utf16Length(a) + Utf16Length(b)
  {
    if a == [] {
      assert a + b == b;
    } else {
      assert (a + b)[0] == a[0];
      assert (a + b)[1..] == a[1..] + b;
      Utf16LengthAppend(a[1..], b);
    }
  }

  // ---------------------------------------------------------------------------
  // filter(Boolean) and join

  /** `parts.filter(Boolean)` on strings: drops the empty ones, keeps the order. */
  function NonEmpty(parts: seq<string>): (r: seq<string>)
    ensures forall i :: 0 <= i < |r| ==> r[i] != ""
    ensures |r| <= |parts|
  {
    if parts == [] then []
    else if parts[0] == "" then NonEmpty(parts[1..])
    else [parts[0]] + NonEmpty(parts[1..])
  }

  /** `parts.join(sep)`. */
  function Join(parts: seq<string>, sep: string): string
  {
    if |parts| == 0 then ""
    else if |parts| == 1 then parts[0]
    else parts[0] + sep + Join(parts[1..], sep)
  }

  /** Joining the non-empty parts gives "" exactly when every part is empty. */
  lemma {:induction false} JoinNonEmptyIsEmpty(parts: seq<string>, sep: string)
    ensures Join(NonEmpty(parts), sep) == "" <==> forall i :: 0 <= i < |parts| ==> parts[i] == ""
  {
    if parts != [] {
      JoinNonEmptyIsEmpty(parts[1..], sep);
      if parts[0] != "" {
        var rest := NonEmpty(parts[1..]);
        assert NonEmpty(parts) == [parts[0]] + rest;
        if rest == [] {
          assert Join([parts[0]] + rest, sep) == parts[0];
        } else {
          assert Join([parts[0]] + rest, sep) == parts[0] + sep + Join(rest, sep);
        }
      } else {
        assert forall i :: 1 <= i < |parts| ==> parts[i] == parts[1..][i - 1];
      }
    }
  }

  /** The non-empty ones among two parts: none exactly when both are empty. */
  lemma NonEmptyPairEmpty(s: string, c: string)
    ensures NonEmpty([s, c]) == [] <==> s == "" && c == ""
  {
    assert [s, c][1..] == [c] && [c][1..] == [];
  }

  /** The non-empty ones among two parts, the second non-empty. */
  lemma NonEmptyPair(a: string, k: string)
    requires k != ""
    ensures NonEmpty([a, k]) == if a == "" then [k] else [a, k]
  {
    assert [a, k][1..] == [k] && [k][1..] == [];
  }

  /** Filtering three parts is filtering the first two and then the third. */
  lemma NonEmptyThree(s: string, c: string, k: string)
    ensures NonEmpty([s, c, k]) == NonEmpty([s, c]) + NonEmpty([k])
  {
    assert [s, c, k][1..] == [c, k] && [c, k][1..] == [k];
    assert [s, c][1..] == [c] && [c][1..] == [];
    assert NonEmpty([c, k]) == NonEmpty([c]) + NonEmpty([k]);
  }

  /** Joining with one more part at the end adds the separator and that part. */
  lemma {:induction false} JoinSnoc(xs: seq<string>, k: string, sep: string)
    ensures Join(xs + [k], sep) == if xs == [] then k else Join(xs, sep) + sep + k
  {
    if |xs| == 1 {
      assert xs + [k] == [xs[0], k];
      assert [xs[0], k][1..] == [k];
    } else if |xs| > 1 {
      assert (xs + [k])[1..] == xs[1..] + [k];
      JoinSnoc(xs[1..], k, sep);
      AppendAssoc(xs[0] + sep, Join(xs[1..], sep), sep + k);
      AppendAssoc(xs[0] + sep + Join(xs[1..], sep), sep, k);
      AppendAssoc(Join(xs[1..], sep), sep, k);
      AppendAssoc(xs[0] + sep, Join(xs[1..], sep) + sep, k);
    }
  }

  // ---------------------------------------------------------------------------
  // trim and whitespace collapsing

  /** A white-space character in front of white space is white space. */
  lemma AllSpaceCons(c: char, s: string)
    requires IsSpace(c) && AllSpace(s)
    ensures AllSpace([c] + s)
  {
    assert forall i :: 0 < i < |[c] + s| ==> ([c] + s)[i] == s[i - 1];
  }

  /** White space followed by a white-space character is white space. */
  lemma AllSpaceSnoc(s: string, c: char)
    requires AllSpace(s) && IsSpace(c)
    ensures AllSpace(s + [c])
  {
    assert forall i :: 0 <= i < |s| ==> (s + [c])[i] == s[i];
  }

  function TrimStart(s: string): (r: string)
    ensures |r| <= |s| && r == s[|s| - |r|..]
    ensures r == [] || !IsSpace(r[0])
    ensures AllSpace(s[..|s| - |r|])
  {
    if s != [] && IsSpace(s[0]) then
      var r := TrimStart(s[1..]);
      TrimStartStep(s, r);
      r
    else s
  }

  /** The step of `TrimStart` past a leading white-space character. */
  lemma TrimStartStep(s: string, r: string)
    requires s != [] && IsSpace(s[0])
    requires |r| <= |s| - 1 && r == s[1..][|s| - 1 - |r|..]
    requires AllSpace(s[1..][..|s| - 1 - |r|])
    ensures r == s[|s| - |r|..] && AllSpace(s[..|s| - |r|])
  {
    var dropped := s[1..][..|s| - 1 - |r|];
    assert dropped == s[1..|s| - |r|];
    assert s[..|s| - |r|] == [s[0]] + dropped;
    AllSpaceCons(s[0], dropped);
  }

  function TrimEnd(s: string): (r: string)
    ensures |r| <= |s| && r == s[..|r|]
    ensures r == [] || !IsSpace(r[|r| - 1])
    ensures AllSpace(s[|r|..])
  {
    if s != [] && IsSpace(s[|s| - 1]) then
      var r := TrimEnd(s[..|s| - 1]);
      TrimEndStep(s, r);
      r
    else s
  }

  /** The step of `TrimEnd` past a trailing white-space character. */
  lemma TrimEndStep(s: string, r: string)
    requires s != [] && IsSpace(s[|s| - 1])
    requires |r| <= |s| - 1 && r == s[..|s| - 1][..|r|]
    requires AllSpace(s[..|s| - 1][|r|..])
    ensures r == s[..|r|] && AllSpace(s[|r|..])
  {
    var dropped := s[..|s| - 1][|r|..];
    assert dropped == s[|r|..|s| - 1];
    assert s[|r|..] == dropped + [s[|s| - 1]];
    AllSpaceSnoc(dropped, s[|s| - 1]);
  }

  /** `s.trim()`: the result neither starts nor ends with white space, and is empty exactly
      when `s` is all white space. */
  function Trim(s: string): (r: string)
    ensures r == [] || (!IsSpace(r[0]) && !IsSpace(r[|r| - 1]))
    ensures r == [] <==> AllSpace(s)
  {
    var t := TrimStart(s);
    var r := TrimEnd(t);
    assert r == [] ==> s == s[..|s| - |t|] + t;
    r
  }

  /** A string with no white space at either end is its own trim. */
  lemma TrimKeeps(e: string)
    requires e != [] && !IsSpace(e[0]) && !IsSpace(e[|e| - 1])
    ensures Trim(e) == e
  {
    assert TrimStart(e) == e;
    assert TrimEnd(e) == e;
  }

  /** Drops a leading run of white space. */
  function DropSpaces(s: string): (r: string)
    ensures |r| <= |s|
    ensures r == [] || !IsSpace(r[0])
  {
    if s != [] && IsSpace(s[0]) then DropSpaces(s[1..]) else s
  }

  /** `s.replace(/\s+/g, " ")`: every maximal run of white space becomes one blank. */
  function CollapseSpaces(s: string): (r: string)
    decreases |s|
  {
    if s == [] then []
    else if IsSpace(s[0]) then " " + CollapseSpaces(DropSpaces(s[1..]))
    else [s[0]] + CollapseSpaces(s[1..])
  }

  /** A string whose only white space is single blanks between words: collapsing and trimming keep it. */
  predicate Tidy(s: string) {
    (s == [] || (!IsSpace(s[0]) && !IsSpace(s[|s| - 1])))
    && (forall i :: 0 <= i < |s| && IsSpace(s[i]) ==> s[i] == ' ')
    && (forall i :: 0 <= i < |s| - 1 && IsSpace(s[i]) ==> !IsSpace(s[i + 1]))
  }

  lemma UnfoldCollapse(a: string, b: string)
    requires a != []
    ensures IsSpace(a[0]) ==> CollapseSpaces(a + b) == " " + CollapseSpaces(DropSpaces(a[1..] + b))
    ensures !IsSpace(a[0]) ==> CollapseSpaces(a + b) == [a[0]] + CollapseSpaces(a[1..] + b)
  {
    var ab := a + b;
    assert ab[0] == a[0];
    assert ab[1..] == a[1..] + b;
  }

  /** A non-blank character passes through collapsing. */
  lemma CollapseCons(c: char, s: string)
    requires !IsSpace(c)
    ensures CollapseSpaces([c] + s) == [c] + CollapseSpaces(s)
  {
    assert ([c] + s)[1..] == s;
  }

  /** A single blank before a non-blank passes through collapsing. */
  lemma CollapseBlankCons(s: string)
    requires s == [] || !IsSpace(s[0])
    ensures CollapseSpaces([' '] + s) == [' '] + CollapseSpaces(s)
  {
    assert ([' '] + s)[1..] == s;
  }

  /** Dropping the white space before a non-blank leaves the non-blank part. */
  lemma DropBlankCons(s: string)
    requires s == [] || !IsSpace(s[0])
    ensures DropSpaces([' '] + s) == s
  {
    assert ([' '] + s)[1..] == s;
  }

  /** Two blanks before a non-blank collapse to one. */
  lemma CollapseDoubleBlankCons(s: string)
    requires s == [] || !IsSpace(s[0])
    ensures CollapseSpaces([' ', ' '] + s) == [' '] + CollapseSpaces(s)
  {
    var t := [' ', ' '] + s;
    assert t[1..] == [' '] + s;
    DropBlankCons(s);
    assert DropSpaces(t[1..]) == s;
  }

  /** Dropping leading white space stops inside `a` when `a` ends with a non-blank. */
  lemma {:induction false} DropSpacesAppend(a: string, b: string)
    requires a != [] && !IsSpace(a[|a| - 1])
    ensures DropSpaces(a + b) == DropSpaces(a) + b
    ensures DropSpaces(a) != [] && !IsSpace(DropSpaces(a)[|DropSpaces(a)| - 1])
    ensures |DropSpaces(a)| <= |a|
  {
    var ab := a + b;
    assert ab[0] == a[0];
    if IsSpace(a[0]) {
      assert ab[1..] == a[1..] + b;
      DropSpacesAppend(a[1..], b);
    }
  }

  /** A white-space character and the run after it collapse to one blank. */
  lemma CollapseSpaceCons(c: char, s: string)
    requires IsSpace(c)
    ensures CollapseSpaces([c] + s) == " " + CollapseSpaces(DropSpaces(s))
  {
    assert ([c] + s)[1..] == s;
  }

  /** One step of `CollapseAppend` at a leading white-space character, given the claim for
      what follows the run. */
  lemma CollapseAppendBlank(c: char, tail: string, b: string)
    requires IsSpace(c) && tail != [] && !IsSpace(tail[|tail| - 1])
    requires CollapseSpaces(DropSpaces(tail) + b) == CollapseSpaces(DropSpaces(tail)) + CollapseSpaces(b)
    ensures CollapseSpaces([c] + tail + b) == CollapseSpaces([c] + tail) + CollapseSpaces(b)
  {
    AppendAssoc([c], tail, b);
    CollapseSpaceCons(c, tail + b);
    CollapseSpaceCons(c, tail);
    DropSpacesAppend(tail, b);
    AppendAssoc(" ", CollapseSpaces(DropSpaces(tail)), CollapseSpaces(b));
  }

  /** One step of `CollapseAppend` at a leading non-blank, given the claim for the rest. */
  lemma CollapseAppendChar(c: char, rest: string, b: string)
    requires !IsSpace(c)
    requires CollapseSpaces(rest + b) == CollapseSpaces(rest) + CollapseSpaces(b)
    ensures CollapseSpaces([c] + rest + b) == CollapseSpaces([c] + rest) + CollapseSpaces(b)
  {
    AppendAssoc([c], rest, b);
    CollapseCons(c, rest);
    CollapseCons(c, rest + b);
    AppendAssoc([c], CollapseSpaces(rest), CollapseSpaces(b));
  }

  /** Collapsing distributes over a split point whose left side ends with a non-blank. */
  lemma {:induction false} CollapseAppend(a: string, b: string)
    requires a == [] || !IsSpace(a[|a| - 1])
    ensures CollapseSpaces(a + b) == CollapseSpaces(a) + CollapseSpaces(b)
    decreases |a|
  {
    if a == [] {
      assert a + b == b;
    } else {
      var tail := a[1..];
      assert a == [a[0]] + tail;
      if tail != [] {
        assert tail[|tail| - 1] == a[|a| - 1];
      }
      if IsSpace(a[0]) {
        DropSpacesAppend(tail, b);
        CollapseAppend(DropSpaces(tail), b);
        CollapseAppendBlank(a[0], tail, b);
      } else {
        CollapseAppend(tail, b);
        CollapseAppendChar(a[0], tail, b);
      }
    }
  }

  /** A string that is already tidy up to its trailing end is left as it is by collapsing. */
  lemma {:induction false} CollapseKeepsSingleBlanks(s: string)
    requires forall i :: 0 <= i < |s| && IsSpace(s[i]) ==> s[i] == ' '
    requires forall i :: 0 <= i < |s| - 1 && IsSpace(s[i]) ==> !IsSpace(s[i + 1])
    ensures CollapseSpaces(s) == s
    decreases |s|
  {
    if s != [] {
      if IsSpace(s[0]) {
        assert |s| > 1 ==> !IsSpace(s[1]);
        assert DropSpaces(s[1..]) == s[1..];
      }
      CollapseKeepsSingleBlanks(s[1..]);
    }
  }

  /** Collapsing and trimming a tidy string gives it back unchanged. */
  lemma TidyIsFixed(s: string)
    requires Tidy(s)
    ensures Trim(CollapseSpaces(s)) == s
  {
    CollapseKeepsSingleBlanks(s);
    assert TrimStart(s) == s;
    assert TrimEnd(s) == s;
  }

  // ---------------------------------------------------------------------------
  // slices and case

  /** `s.slice(-n)`: the last `n` characters, or all of `s` when it is shorter. */
  function LastN(s: string, n: nat): (r: string)
    ensures |r| == if |s| <= n then |s| else n
    ensures r == s[|s| - |r|..]
  {
    if |s| <= n then s else s[|s| - n..]
  }

  function UpperChar(c: char): char {
    if 'a' <= c <= 'z' then (c as int - 'a' as int + 'A' as int) as char else c
  }

  function LowerChar(c: char): char {
    if 'A' <= c <= 'Z' then (c as int - 'A' as int + 'a' as int) as char else c
  }

  /** `s.toUpperCase()` on ASCII letters. */
  function ToUpper(s: string): (r: string)
    ensures |r| == |s| && forall i :: 0 <= i < |s| ==> r[i] == UpperChar(s[i])
  {
    seq(|s|, i requires 0 <= i < |s| => UpperChar(s[i]))
  }

  /** `s.toLowerCase()` on ASCII letters. */
  function ToLower(s: string): (r: string)
    ensures |r| == |s| && forall i :: 0 <= i < |s| ==> r[i] == LowerChar(s[i])
  {
    seq(|s|, i requires 0 <= i < |s| => LowerChar(s[i]))
  }

  /** `needle` occurs in `hay` starting at position `k`. */
  predicate OccursAt(needle: string, hay: string, k: int) {
    0 <= k && k + |needle| <= |hay| && hay[k..k + |needle|] == needle
  }

  /** `hay.includes(needle)`. */
  predicate Contains(hay: string, needle: string) {
    exists k | 0 <= k <= |hay| :: OccursAt(needle, hay, k)
  }

  /** Case-insensitive substring test (ASCII case folding). */
  predicate ContainsIgnoreCase(hay: string, needle: string) {
    Contains(ToLower(hay), ToLower(needle))
  }

  // ---------------------------------------------------------------------------
  // decimal rendering

  function DigitChar(d: nat): char
    requires d < 10
  {
    "0123456789"[d]
  }

  /** Decimal digits of a natural number, most significant first. */
  function NatText(n: nat): (r: string)
    ensures |r| >= 1
    ensures forall i :: 0 <= i < |r| ==> '0' <= r[i] <= '9'
  {
    if n < 10 then [DigitChar(n)] else NatText(n / 10) + [DigitChar(n % 10)]
  }

  /** `String(n)` for an integer `n`. */
  function IntText(n: int): (r: string)
    ensures |r| >= 1
    ensures forall i :: 0 <= i < |r| ==> !IsSpace(r[i])
  {
    if n < 0 then "-" + NatText(-n) else NatText(n)
  }

  /** `n` zero-padded on the left to `width` digits. */
  function PaddedNat(n: nat, width: nat): (r: string)
    ensures |r| >= width
  {
    var t := NatText(n);
    if |t| >= width then t else seq(width - |t|, _ => '0') + t
  }
}
