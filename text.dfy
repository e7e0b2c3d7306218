/** The string operations the services rely on: Python's `str.strip()`,
    `str.lower()`, `str(n)`, `int(s)` and the zero-padded `{n:0Wd}` format.

    Whitespace is the set of characters `str.isspace()` accepts; case
    folding is ASCII only.
    Everything is stated on `string` (a `seq<char>`). */
module Text {
  import opened Wrappers

  // ---------------------------------------------------------------------
  // Whitespace and strip
  // ---------------------------------------------------------------------

  /** The characters `str.strip()` removes: tab to carriage return, the
      four ASCII separators 0x1C-0x1F, space, and the Unicode blanks and
      line/paragraph separators `str.isspace()` accepts. */
  predicate IsSpace(c: char) {
    || ('\t' <= c <= '\r') || ('\U{001C}' <= c <= ' ')
    || c == '\U{0085}' || c == '\U{00A0}' || c == '\U{1680}'
    || ('\U{2000}' <= c <= '\U{200A}')
    || c == '\U{2028}' || c == '\U{2029}' || c == '\U{202F}' || c == '\U{205F}' || c == '\U{3000}'
  }

  predicate AllSpace(s: string) {
    forall i :: 0 <= i < |s| ==> IsSpace(s[i])
  }

  /** Drops leading whitespace. */
  function StripLeft(s: string): string {
    if s != [] && IsSpace(s[0]) then StripLeft(s[1..]) else s
  }

  /** Drops trailing whitespace. */
  function StripRight(s: string): string {
    if s != [] && IsSpace(s[|s| - 1]) then StripRight(s[..|s| - 1]) else s
  }

  /** `s.strip()`. */
  function Strip(s: string): string {
    StripRight(StripLeft(s))
  }

  /** What `StripLeft` drops is all whitespace, and what it keeps is a
      suffix that does not start with whitespace. */
  lemma {:induction false} StripLeftSpec(s: string)
    ensures var r := StripLeft(s);
      |r| <= |s| && r == s[|s| - |r|..] && AllSpace(s[..|s| - |r|]) && (r == [] || !IsSpace(r[0]))
  {
    if s != [] && IsSpace(s[0]) {
      StripLeftSpec(s[1..]);
      var r := StripLeft(s);
      assert s[..|s| - |r|] == [s[0]] + s[1..][..|s| - 1 - |r|];
    }
  }

  /** What `StripRight` drops is all whitespace, and what it keeps is a
      prefix that does not end with whitespace. */
  lemma {:induction false} StripRightSpec(s: string)
    ensures var r := StripRight(s);
      |r| <= |s| && r == s[..|r|] && AllSpace(s[|r|..]) && (r == [] || !IsSpace(r[|r| - 1]))
  {
    if s != [] && IsSpace(s[|s| - 1]) {
      StripRightSpec(s[..|s| - 1]);
      var r := StripRight(s);
      assert s[|r|..] == s[..|s| - 1][|r|..] + [s[|s| - 1]];
    }
  }

  /** `s.strip()` is the infix of `s` that neither starts nor ends with
      whitespace and outside of which `s` holds only whitespace. */
  lemma StripSpec(s: string)
    ensures var r := Strip(s);
      && (r == [] || (!IsSpace(r[0]) && !IsSpace(r[|r| - 1])))
      && exists i :: 0 <= i <= |s| - |r| && r == s[i..i + |r|]
                     && AllSpace(s[..i]) && AllSpace(s[i + |r|..])
  {
    var l := StripLeft(s);
    var r := StripRight(l);
    StripLeftSpec(s);
    StripRightSpec(l);
    var i := |s| - |l|;
    assert r == s[i..i + |r|];
    assert s[i + |r|..] == l[|r|..];
  }

  /** A string strips to nothing exactly when it is all whitespace; this is
      the source's "blank" test `not s.strip()`. */
  lemma StripEmptyIffBlank(s: string)
    ensures Strip(s) == [] <==> AllSpace(s)
  {
    var l := StripLeft(s);
    StripLeftSpec(s);
    StripRightSpec(l);
    if Strip(s) == [] {
      assert l == [];
      assert s[..|s| - |l|] == s;
    }
  }

  /** A string without whitespace at either end strips to itself. */
  lemma StripUnpadded(s: string)
    requires s == [] || (!IsSpace(s[0]) && !IsSpace(s[|s| - 1]))
    ensures Strip(s) == s
  {
    assert StripLeft(s) == s;
    assert StripRight(s) == s;
  }

  /** Stripping twice is stripping once. */
  lemma StripIdempotent(s: string)
    ensures Strip(Strip(s)) == Strip(s)
  {
    StripSpec(s);
    StripUnpadded(Strip(s));
  }

  // ---------------------------------------------------------------------
  // ASCII case folding
  // ---------------------------------------------------------------------

  function LowerChar(c: char): char {
    if 'A' <= c <= 'Z' then (c as int + 32) as char else c
  }

  /** `s.lower()` on ASCII letters. */
  function Lower(s: string): (r: string)
    ensures |r| == |s| && forall i :: 0 <= i < |s| ==> r[i] == LowerChar(s[i])
  {
    seq(|s|, i requires 0 <= i < |s| => LowerChar(s[i]))
  }

  /** A string lower-cases to "active" exactly when it spells "active" in
      any mix of upper- and lower-case letters. */
  lemma LowerIsActive(s: string)
    ensures Lower(s) == "active" <==>
            |s| == 6 && forall i :: 0 <= i < 6 ==> s[i] == "active"[i] || s[i] == "ACTIVE"[i]
  {
    if Lower(s) == "active" {
      forall i | 0 <= i < 6
        ensures s[i] == "active"[i] || s[i] == "ACTIVE"[i]
      {
        assert LowerChar(s[i]) == "active"[i];
      }
    }
    if |s| == 6 && forall i :: 0 <= i < 6 ==> s[i] == "active"[i] || s[i] == "ACTIVE"[i] {
      forall i | 0 <= i < 6
        ensures Lower(s)[i] == "active"[i]
      {
        assert LowerChar("ACTIVE"[i]) == "active"[i];
      }
    }
  }

  /** Lower-casing twice is lower-casing once. */
  lemma LowerIdempotent(s: string)
    ensures Lower(Lower(s)) == Lower(s)
  {
    forall i | 0 <= i < |s|
      ensures Lower(Lower(s))[i] == Lower(s)[i]
    {
      assert LowerChar(LowerChar(s[i])) == LowerChar(s[i]);
    }
  }

  // ---------------------------------------------------------------------
  // Decimal rendering and parsing
  // ---------------------------------------------------------------------

  predicate IsDigit(c: char) {
    '0' <= c <= '9'
  }

  predicate AllDigits(s: string) {
    forall i :: 0 <= i < |s| ==> IsDigit(s[i])
  }

  function DigitChar(d: nat): (c: char)
    requires d < 10
    ensures IsDigit(c)
  {
    ('0' as int + d) as char
  }

  function DigitValue(c: char): (d: nat)
    requires IsDigit(c)
    ensures d < 10
  {
    c as int - '0' as int
  }

  function Pow10(k: nat): (p: nat)
    ensures p >= 1
  {
    if k == 0 then 1 else 10 * Pow10(k - 1)
  }

  /** `str(n)` for a non-negative integer. */
  function NatToString(n: nat): string
    decreases n
  {
    if n < 10 then [DigitChar(n)] else NatToString(n / 10) + [DigitChar(n % 10)]
  }

  /** `str(n)` is a non-empty string of digits without a leading zero. */
  lemma {:induction false} NatToStringDigits(n: nat)
    ensures var r := NatToString(n); |r| >= 1 && AllDigits(r) && (r[0] == '0' ==> n == 0)
    decreases n
  {
    if n >= 10 {
      NatToStringDigits(n / 10);
    }
  }

  /** The value of a string of decimal digits, leading zeros allowed. */
  function ParseDigits(s: string): nat
    requires AllDigits(s)
  {
    if s == [] then 0 else ParseDigits(s[..|s| - 1]) * 10 + DigitValue(s[|s| - 1])
  }

  /** Parsing undoes rendering. */
  lemma {:induction false} ParseNatToString(n: nat)
    ensures AllDigits(NatToString(n)) && ParseDigits(NatToString(n)) == n
    decreases n
  {
    NatToStringDigits(n);
    if n >= 10 {
      var s := NatToString(n);
      assert s[..|s| - 1] == NatToString(n / 10);
      ParseNatToString(n / 10);
    }
  }

  lemma NatToStringInjective(a: nat, b: nat)
    ensures NatToString(a) == NatToString(b) ==> a == b
  {
    ParseNatToString(a);
    ParseNatToString(b);
  }

  /** A number with exactly `k` digits renders as `k` characters. */
  lemma {:induction false} NatToStringLength(n: nat, k: nat)
    requires k >= 1 && Pow10(k - 1) <= n < Pow10(k)
    ensures |NatToString(n)| == k
    decreases k
  {
    if k > 1 {
      NatToStringLength(n / 10, k - 1);
    }
  }

  /** `str(i)` for any integer. */
  function IntToString(i: int): string {
    if i < 0 then "-" + NatToString(-i) else NatToString(i)
  }

  lemma IntToStringInjective(a: int, b: int)
    ensures IntToString(a) == IntToString(b) ==> a == b
  {
    if IntToString(a) == IntToString(b) {
      if a < 0 && b < 0 {
        assert NatToString(-a) == IntToString(a)[1..];
        assert NatToString(-b) == IntToString(b)[1..];
        NatToStringInjective(-a, -b);
      } else if a >= 0 && b >= 0 {
        NatToStringInjective(a, b);
      } else {
        var n := if a < 0 then b else a;
        NatToStringDigits(n);
      }
    }
  }

  function Zeros(k: nat): (r: string)
    ensures |r| == k
  {
    if k == 0 then [] else Zeros(k - 1) + ['0']
  }

  lemma {:induction false} ZerosDigits(k: nat)
    ensures AllDigits(Zeros(k))
  {
    if k > 0 {
      ZerosDigits(k - 1);
    }
  }

  /** Left-pads a string with zeros up to `width` characters. */
  function PadDigits(s: string, width: int): string {
    if |s| < width then Zeros(width - |s|) + s else s
  }

  /** `f"{i:0{width}d}"`: zero padding after the sign, to at least `width`
      characters in all. */
  function ZeroPad(i: int, width: nat): string {
    if i < 0 then "-" + PadDigits(NatToString(-i), width - 1)
    else PadDigits(NatToString(i), width)
  }

  /** Leading zeros do not change a digit string's value. */
  lemma {:induction false} ParseDigitsZeros(k: nat, s: string)
    requires AllDigits(s)
    ensures AllDigits(Zeros(k) + s) && ParseDigits(Zeros(k) + s) == ParseDigits(s)
    decreases |s|, k
  {
    ZerosDigits(k);
    var z := Zeros(k) + s;
    if s == [] {
      assert z == Zeros(k);
      if k > 0 {
        assert z[..|z| - 1] == Zeros(k - 1);
        ParseDigitsZeros(k - 1, []);
        assert Zeros(k - 1) + [] == Zeros(k - 1);
      }
    } else {
      assert z[..|z| - 1] == Zeros(k) + s[..|s| - 1];
      ParseDigitsZeros(k, s[..|s| - 1]);
    }
  }

  /** Zero padding to a fixed width never maps two numbers to one string. */
  lemma ZeroPadInjective(a: int, b: int, width: nat)
    ensures ZeroPad(a, width) == ZeroPad(b, width) ==> a == b
  {
    ZeroPadValue(a, width);
    ZeroPadValue(b, width);
  }

  /** The padded string still reads back as the number. */
  lemma ZeroPadValue(i: int, width: nat)
    ensures var r := ZeroPad(i, width);
      && (i >= 0 ==> AllDigits(r) && ParseDigits(r) == i)
      && (i < 0 ==> |r| >= 1 && r[0] == '-' && AllDigits(r[1..]) && ParseDigits(r[1..]) == -i)
  {
    if i < 0 {
      var d := PadDigits(NatToString(-i), width - 1);
      assert ("-" + d)[1..] == d;
      PaddedValue(-i, width - 1);
    } else {
      PaddedValue(i, width);
    }
  }

  /** Padding a digit string with zeros keeps it a digit string of the
      same value. */
  lemma PaddedParse(s: string, width: int)
    requires AllDigits(s)
    ensures AllDigits(PadDigits(s, width)) && ParseDigits(PadDigits(s, width)) == ParseDigits(s)
  {
    if |s| < width {
      ParseDigitsZeros(width - |s|, s);
    }
  }

  lemma PaddedValue(n: nat, width: int)
    ensures AllDigits(PadDigits(NatToString(n), width))
    ensures ParseDigits(PadDigits(NatToString(n), width)) == n
  {
    ParseNatToString(n);
    PaddedParse(NatToString(n), width);
  }


  /** A number below `10^width` pads to exactly `width` digits. */
  lemma ZeroPadLength(n: nat, width: nat)
    requires width >= 1 && n < Pow10(width)
    ensures |ZeroPad(n, width)| == width && AllDigits(ZeroPad(n, width))
  {
    NatToStringShort(n, width);
    PaddedValue(n, width);
  }

  lemma {:induction false} NatToStringShort(n: nat, width: nat)
    requires width >= 1 && n < Pow10(width)
    ensures |NatToString(n)| <= width
    decreases width
  {
    if n >= 10 {
      NatToStringShort(n / 10, width - 1);
    }
  }

  /** The whitespace `int()` skips around a number. It keeps characters
      below U+007F as they are and strips only the ASCII blanks among them,
      so the four separators 0x1C-0x1F, which `str.strip()` removes, make
      the literal invalid; the other `str.isspace()` characters count. */
  predicate IsIntSpace(c: char) {
    IsSpace(c) && !('\U{001C}' <= c <= '\U{001F}')
  }

  function IntStripLeft(s: string): string {
    if s != [] && IsIntSpace(s[0]) then IntStripLeft(s[1..]) else s
  }

  function IntStripRight(s: string): string {
    if s != [] && IsIntSpace(s[|s| - 1]) then IntStripRight(s[..|s| - 1]) else s
  }

  /** The text `int()` reads once the blanks around it are skipped. */
  function IntStrip(s: string): string {
    IntStripRight(IntStripLeft(s))
  }

  /** Python's `int(s)` on a string: surrounding whitespace, an optional
      sign and at least one ASCII digit. */
  function ParseInt(s: string): Option<int> {
    var t := IntStrip(s);
    if t == [] then None
    else if t[0] == '-' || t[0] == '+' then
      if |t| > 1 && AllDigits(t[1..]) then
        var v: int := ParseDigits(t[1..]);
        Some(if t[0] == '-' then -v else v)
      else None
    else if AllDigits(t) then Some(ParseDigits(t))
    else None
  }

  /** `int(str(i)) == i`. */
  lemma ParseIntToString(i: int)
    ensures ParseInt(IntToString(i)) == Some(i)
  {
    if i < 0 {
      ParseNegative(-i);
    } else {
      ParseNonNegative(i);
    }
  }

  lemma ParseNonNegative(n: nat)
    ensures ParseInt(NatToString(n)) == Some(n)
  {
    var s := NatToString(n);
    ParseNatToString(n);
    assert IsDigit(s[0]) && IsDigit(s[|s| - 1]);
    assert IntStripLeft(s) == s;
    assert IntStripRight(s) == s;
  }

  lemma ParseNegative(n: nat)
    requires n > 0
    ensures ParseInt("-" + NatToString(n)) == Some(-(n as int))
  {
    var d := NatToString(n);
    var s := "-" + d;
    NatToStringDigits(n);
    assert s[1..] == d;
    assert IsDigit(d[|d| - 1]) && s[|s| - 1] == d[|d| - 1];
    assert IntStripLeft(s) == s;
    assert IntStripRight(s) == s;
    ParseNatToString(n);
  }

  /** `int()` skips a no-break space or an ideographic space around the
      digits but rejects a file separator, which `str.strip()` would have
      removed. */
  lemma ParseIntSeparators()
    ensures ParseInt("\U{00A0}5") == Some(5)
    ensures ParseInt("5\U{3000}") == Some(5)
    ensures ParseInt("\U{001C}10") == None
    ensures Strip("\U{001C}10") == "10"
  {
    assert IntStripLeft("\U{00A0}5") == IntStripLeft("5") == "5";
    assert IntStripRight("5\U{3000}") == IntStripRight("5") == "5";
    assert ParseDigits("5") == 5;
    var s := "\U{001C}10";
    assert IntStripLeft(s) == s;
    assert IntStripRight(s) == s;
    assert !IsDigit(s[0]);
    assert StripLeft(s) == StripLeft(s[1..]) == "10";
    assert StripRight("10") == "10";
  }

  // ---------------------------------------------------------------------
  // repr() of a string, as `int()` quotes it in its error message
  // ---------------------------------------------------------------------

  /** The characters `repr` writes as `\xhh`: the C0 and C1 controls,
      DEL, no-break space and soft hyphen (the unprintable characters up
      to U+00FF). */
  predicate HexEscaped(c: char) {
    c < ' ' || ('\U{007F}' <= c <= '\U{00A0}') || c == '\U{00AD}'
  }

  function HexDigit(n: nat): char
    requires n < 16
  {
    if n < 10 then ('0' as int + n) as char else ('a' as int + n - 10) as char
  }

  /** One character inside the quotes `q`: backslash, the quote itself,
      tab, newline and carriage return get their short escapes, the other
      unprintable characters up to U+00FF a two-digit hex escape. */
  function ReprChar(c: char, q: char): string {
    if c == '\\' then "\\\\"
    else if c == q then ['\\', q]
    else if c == '\t' then "\\t"
    else if c == '\n' then "\\n"
    else if c == '\r' then "\\r"
    else if HexEscaped(c) then ['\\', 'x', HexDigit(c as int / 16), HexDigit(c as int % 16)]
    else [c]
  }

  function ReprBody(s: string, q: char): string {
    if s == [] then [] else ReprChar(s[0], q) + ReprBody(s[1..], q)
  }

  /** `repr(s)`: double quotes when `s` holds a single quote and no double
      quote, single quotes otherwise. */
  function Repr(s: string): string {
    var q := if '\'' in s && '"' !in s then '"' else '\'';
    [q] + ReprBody(s, q) + [q]
  }

  const InvalidLiteralPrefix := "invalid literal for int() with base 10: "

  /** The message of the `ValueError` that `int(s)` raises: the `repr` of
      the argument, cut to 200 characters. */
  function InvalidLiteral(s: string): (r: string)
    ensures |InvalidLiteralPrefix| < |r| <= |InvalidLiteralPrefix| + 200
    ensures r[..|InvalidLiteralPrefix|] == InvalidLiteralPrefix
  {
    var q := Repr(s);
    InvalidLiteralPrefix + (if |q| <= 200 then q else q[..200])
  }

  lemma {:induction false} ReprBodyPlain(s: string)
    requires forall i :: 0 <= i < |s| ==> ' ' <= s[i] <= '~' && s[i] != '\\' && s[i] != '\''
    ensures ReprBody(s, '\'') == s
  {
    if s != [] {
      ReprBodyPlain(s[1..]);
    }
  }

  /** A string of printable ASCII without quote or backslash is shown
      between single quotes, unchanged. */
  lemma ReprPlain(s: string)
    requires forall i :: 0 <= i < |s| ==> ' ' <= s[i] <= '~' && s[i] != '\\' && s[i] != '\''
    ensures Repr(s) == "'" + s + "'"
  {
    ReprBodyPlain(s);
  }

  lemma {:induction false} ReprBodyPrintable(s: string, q: char)
    requires !HexEscaped(q) && q != '\t' && q != '\n' && q != '\r'
    ensures forall i :: 0 <= i < |ReprBody(s, q)| ==> !HexEscaped(ReprBody(s, q)[i])
  {
    if s != [] {
      ReprBodyPrintable(s[1..], q);
      var h := ReprChar(s[0], q);
      assert forall i :: 0 <= i < |h| ==> !HexEscaped(h[i]);
      assert ReprBody(s, q) == h + ReprBody(s[1..], q);
    }
  }

  /** No control character survives `repr`: a key holding a newline is
      shown with the escape `\n`. */
  lemma ReprPrintable(s: string)
    ensures forall i :: 0 <= i < |Repr(s)| ==> !HexEscaped(Repr(s)[i])
  {
    var q := if '\'' in s && '"' !in s then '"' else '\'';
    ReprBodyPrintable(s, q);
  }

  /** A denomination key holding a single quote is shown in double quotes. */
  lemma InvalidLiteralQuote()
    ensures InvalidLiteral("a'b") == "invalid literal for int() with base 10: \"a'b\""
  {
    var s := "a'b";
    assert '\'' in s && '"' !in s by { assert s[1] == '\''; }
    assert ReprBody(s[2..], '"') == "b" + ReprBody([], '"');
    assert ReprBody(s[1..], '"') == "'" + ReprBody(s[2..], '"');
    assert Repr(s) == "\"a'b\"";
  }

  /** A denomination key holding a newline is shown with its escape. */
  lemma InvalidLiteralNewline()
    ensures InvalidLiteral("x\n") == "invalid literal for int() with base 10: 'x\\n'"
  {
    var s := "x\n";
    assert '\'' !in s;
    assert ReprBody(s[1..], '\'') == "\\n" + ReprBody([], '\'');
    assert Repr(s) == "'x\\n'";
  }

  /** A key holding both quotes keeps the single quotes and escapes its own. */
  lemma InvalidLiteralBothQuotes()
    ensures InvalidLiteral("'\"") == "invalid literal for int() with base 10: '\\'\"'"
  {
    var s := "'\"";
    assert '"' in s by { assert s[1] == '"'; }
    assert ReprBody(s[1..], '\'') == "\"" + ReprBody([], '\'');
    assert Repr(s) == "'\\'\"'";
  }
}
