/**
 * The Java library text operations the core calls: `Integer.toString`,
 * `Integer.parseInt`, `String.split` (on one literal character and on
 * `\s+`), `String.join` and `String.toLowerCase`.
 */
module JavaText {
  import opened Wrappers

  /** Java's `int`. */
  type Int32 = x: int | -0x8000_0000 <= x < 0x8000_0000

  predicate IsDigit(c: char) { '0' <= c <= '9' }

  function DigitChar(d: int): (c: char)
    requires 0 <= d < 10
    ensures IsDigit(c) && c as int - '0' as int == d
  {
    ('0' as int + d) as char
  }

  /** Decimal digits, most significant first, with no leading zero. */
  function NatToString(n: nat): (s: string)
    ensures |s| > 0 && forall i | 0 <= i < |s| :: IsDigit(s[i])
    ensures |s| > 1 ==> s[0] != '0'
  {
    if n < 10 then [DigitChar(n)] else NatToString(n / 10) + [DigitChar(n % 10)]
  }

  /** `Integer.toString`: a minus sign for negative values, then the digits. */
  function IntToString(n: int): (s: string)
    ensures |s| > 0 && (n < 0 <==> s[0] == '-')
    ensures forall i | 0 <= i < |s| :: IsDigit(s[i]) || (i == 0 && s[i] == '-')
  {
    if n < 0 then "-" + NatToString(-n) else NatToString(n)
  }

  function DigitValue(c: char): nat
    requires IsDigit(c)
  {
    c as int - '0' as int
  }

  /** The value of a string of ASCII digits. */
  function DigitsValue(s: string): nat
    requires forall i | 0 <= i < |s| :: IsDigit(s[i])
  {
    if |s| == 0 then 0 else DigitsValue(s[..|s| - 1]) * 10 + DigitValue(s[|s| - 1])
  }

  lemma {:induction false} DigitsOfNat(n: nat)
    ensures DigitsValue(NatToString(n)) == n
  {
    if n >= 10 {
      var s := NatToString(n);
      assert s[..|s| - 1] == NatToString(n / 10);
      DigitsOfNat(n / 10);
    }
  }

  predicate AllDigits(s: string)
  {
    forall i | 0 <= i < |s| :: IsDigit(s[i])
  }

  /** The text of an integer: an optional `-` or `+`, then one or more ASCII digits. */
  predicate IntSyntax(s: string)
  {
    |s| > 0 && if s[0] == '-' || s[0] == '+' then |s| > 1 && AllDigits(s[1..]) else AllDigits(s)
  }

  /** The value such a text denotes, the sign applied. */
  function SignedValue(s: string): int
    requires IntSyntax(s)
  {
    if s[0] == '-' then -(DigitsValue(s[1..]) as int)
    else if s[0] == '+' then DigitsValue(s[1..])
    else DigitsValue(s)
  }

  /**
   * `Integer.parseInt`: an optional sign followed by at least one ASCII digit,
   * with a value inside `int`; anything else is a `NumberFormatException`,
   * here `None`.
   */
  function ParseInt(s: string): (r: Option<Int32>)
    ensures r.Some? <==> IntSyntax(s) && -0x8000_0000 <= SignedValue(s) < 0x8000_0000
    ensures r.Some? ==> r.value as int == SignedValue(s)
  {
    if |s| == 0 then None
    else if s[0] == '-' || s[0] == '+' then
      if |s| == 1 || !AllDigits(s[1..]) then None
      else
        var v: int := if s[0] == '-' then -(DigitsValue(s[1..]) as int) else DigitsValue(s[1..]);
        if -0x8000_0000 <= v < 0x8000_0000 then Some(v) else None
    else if !AllDigits(s) then None
    else if DigitsValue(s) < 0x8000_0000 then Some(DigitsValue(s)) else None
  }

  /** `Integer.parseInt(Integer.toString(n)) == n` for every `int`. */
  lemma IntRoundTrip(n: Int32)
    ensures ParseInt(IntToString(n)) == Some(n)
  {
    if n < 0 {
      var m: nat := -(n as int);
      var s := IntToString(n);
      assert s[1..] == NatToString(m);
      DigitsOfNat(m);
    } else {
      DigitsOfNat(n);
    }
  }

  /** An empty text, a bare sign and a stray character are rejected; an explicit `+` is accepted. */
  lemma ParseIntEdges()
    ensures ParseInt("") == None && ParseInt("-") == None && ParseInt("+") == None
    ensures ParseInt("1a") == None && ParseInt("-x") == None
    ensures ParseInt("+7") == Some(7) && ParseInt("-12") == Some(-12)
  {
    assert !AllDigits("1a") by { assert !IsDigit("1a"[1]); }
    assert !AllDigits("-x"[1..]) by { assert !IsDigit("-x"[1..][0]); }
    assert "+7"[1..] == "7";
    assert "-12"[1..] == "12" && "12"[..1] == "1";
  }

  // ----- split and join on one character -----

  /** The fields between occurrences of `sep`, empty ones included. */
  function Fields(s: string, sep: char): (r: seq<string>)
    ensures |r| >= 1
  {
    if |s| == 0 then [""]
    else
      var rest := Fields(s[1..], sep);
      if s[0] == sep then [""] + rest else [[s[0]] + rest[0]] + rest[1..]
  }

  function DropTrailingEmpty(parts: seq<string>): (r: seq<string>)
    ensures |r| <= |parts| && r == parts[..|r|]
    ensures |r| > 0 ==> r[|r| - 1] != ""
    ensures forall i | |r| <= i < |parts| :: parts[i] == ""
  {
    if |parts| == 0 || parts[|parts| - 1] != "" then parts else DropTrailingEmpty(parts[..|parts| - 1])
  }

  /**
   * `s.split(sep)` for a separator that is not a regular-expression
   * metacharacter: without a match the answer is `[s]`; otherwise the fields
   * with trailing empty ones removed.
   */
  function JavaSplit(s: string, sep: char): seq<string>
  {
    if sep !in s then [s] else DropTrailingEmpty(Fields(s, sep))
  }

  /** `String.join`. */
  function Join(parts: seq<string>, sep: char): string
    requires |parts| >= 1
  {
    if |parts| == 1 then parts[0] else parts[0] + [sep] + Join(parts[1..], sep)
  }

  lemma {:induction false} FieldsPrefix(a: string, t: string, sep: char)
    requires sep !in a
    ensures Fields(a + t, sep) == [a + Fields(t, sep)[0]] + Fields(t, sep)[1..]
  {
    if |a| > 0 {
      assert (a + t)[1..] == a[1..] + t;
      FieldsPrefix(a[1..], t, sep);
      assert [a[0]] + (a[1..] + Fields(t, sep)[0]) == a + Fields(t, sep)[0];
    } else {
      var f := Fields(t, sep);
      assert a + t == t && a + f[0] == f[0];
      assert f == [f[0]] + f[1..];
    }
  }

  /** Splitting a join of separator-free parts gives the parts back. */
  lemma {:induction false} FieldsOfJoin(parts: seq<string>, sep: char)
    requires |parts| >= 1 && forall i | 0 <= i < |parts| :: sep !in parts[i]
    ensures Fields(Join(parts, sep), sep) == parts
  {
    if |parts| == 1 {
      FieldsPrefix(parts[0], "", sep);
      assert parts[0] + "" == parts[0];
      assert Fields("", sep) == [""];
    } else {
      var rest := Join(parts[1..], sep);
      FieldsOfJoin(parts[1..], sep);
      assert parts[0] + [sep] + rest == parts[0] + ([sep] + rest);
      FieldsPrefix(parts[0], [sep] + rest, sep);
      assert ([sep] + rest)[1..] == rest;
      assert Fields([sep] + rest, sep) == [""] + Fields(rest, sep);
      assert parts[0] + "" == parts[0];
      assert parts == [parts[0]] + parts[1..];
    }
  }

  /**
   * Joining two or more separator-free parts whose last part is nonempty,
   * then splitting, gives the parts back.
   */
  lemma SplitOfJoin(parts: seq<string>, sep: char)
    requires |parts| >= 2 && forall i | 0 <= i < |parts| :: sep !in parts[i]
    requires parts[|parts| - 1] != ""
    ensures JavaSplit(Join(parts, sep), sep) == parts
  {
    FieldsOfJoin(parts, sep);
    var s := Join(parts, sep);
    assert s == parts[0] + [sep] + Join(parts[1..], sep);
    assert s[|parts[0]|] == sep;
  }

  // ----- split on runs of whitespace -----

  /** A character of the regular-expression class `\s`. */
  predicate IsSpace(c: char)
  {
    c == ' ' || c == '\t' || c == '\n' || c == '\U{B}' || c == '\U{C}' || c == '\r'
  }

  function SkipSpaces(s: string): (r: string)
    ensures |r| <= |s| && (|s| > 0 && IsSpace(s[0]) ==> |r| < |s|)
    ensures |r| > 0 ==> !IsSpace(r[0])
  {
    if |s| > 0 && IsSpace(s[0]) then SkipSpaces(s[1..]) else s
  }

  /** The fields between maximal runs of whitespace, a leading empty one included. */
  function SpaceFields(s: string): (r: seq<string>)
    ensures |r| >= 1
    decreases |s|
  {
    if |s| == 0 then [""]
    else if IsSpace(s[0]) then [""] + SpaceFields(SkipSpaces(s))
    else
      var rest := SpaceFields(s[1..]);
      [[s[0]] + rest[0]] + rest[1..]
  }

  predicate HasSpace(s: string)
  {
    exists i | 0 <= i < |s| :: IsSpace(s[i])
  }

  /** `s.split("\\s+")`. */
  function SplitSpaces(s: string): seq<string>
  {
    if !HasSpace(s) then [s] else DropTrailingEmpty(SpaceFields(s))
  }

  // ----- case -----

  /** `Character.toLowerCase` on ASCII and Latin-1: A to Z and the capitals from U+00C0 to U+00DE but U+00D7. */
  function LowerChar(c: char): (l: char)
    ensures 'A' <= c <= 'Z' ==> l as int == c as int + 32
    ensures 'À' <= c <= 'Þ' && c != '×' ==> l as int == c as int + 32
    ensures !('A' <= c <= 'Z') && !('À' <= c <= 'Þ' && c != '×') ==> l == c
    ensures !('A' <= l <= 'Z') && !('À' <= l <= 'Þ' && l != '×')
  {
    if 'A' <= c <= 'Z' || ('À' <= c <= 'Þ' && c != '×') then (c as int + 32) as char else c
  }

  /** `String.toLowerCase`, one character at a time. */
  function ToLower(s: string): (r: string)
    ensures |r| == |s| && forall i | 0 <= i < |s| :: r[i] == LowerChar(s[i])
  {
    if |s| == 0 then [] else [LowerChar(s[0])] + ToLower(s[1..])
  }

  /** A string lower-cases to `t` when each of its characters lower-cases to the one of `t` at the same place. */
  lemma LowerIs(s: string, t: string)
    requires |s| == |t| && forall i | 0 <= i < |s| :: LowerChar(s[i]) == t[i]
    ensures ToLower(s) == t
  {
  }

  /** Lower-casing twice is lower-casing once. */
  lemma ToLowerIdempotent(s: string)
    ensures ToLower(ToLower(s)) == ToLower(s)
  {
    var t := ToLower(s);
    assert forall i | 0 <= i < |t| :: LowerChar(t[i]) == t[i];
  }
}
