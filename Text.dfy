/** The Python string operations the shim relies on, on `seq<char>`:
    strip/rstrip, upper/lower, startswith/endswith, `in`, split, split on
    whitespace, `replace("//", "/")`, `str(n)` for naturals and `float(s)` /
    `int(s)` on decimal literals. Whitespace is Python's full str.isspace
    set; case mapping is ASCII. */
module Text {
  import opened Wrappers

  // ---------------------------------------------------------------- whitespace

  /** Python's str.isspace: \t through \r, the separators 0x1C-0x1F, space,
      NEL, no-break space, the ogham mark, the typographic spaces
      U+2000-U+200A, the line and paragraph separators, the narrow no-break
      space, the mathematical space and the ideographic space. */
  predicate IsSpace(c: char) {
    ('\t' <= c <= '\r') || ('\U{001C}' <= c <= ' ') || c == '\U{0085}' || c == '\U{00A0}'
    || c == '\U{1680}' || ('\U{2000}' <= c <= '\U{200A}') || c == '\U{2028}' || c == '\U{2029}'
    || c == '\U{202F}' || c == '\U{205F}' || c == '\U{3000}'
  }

  function LStrip(s: string): (r: string)
    ensures |r| <= |s| && r == s[|s| - |r|..]
    ensures r == "" || !IsSpace(r[0])
    ensures forall i :: 0 <= i < |s| - |r| ==> IsSpace(s[i])
    decreases |s|
  {
    if |s| > 0 && IsSpace(s[0]) then LStrip(s[1..]) else s
  }

  function RStrip(s: string): (r: string)
    ensures |r| <= |s| && r == s[..|r|]
    ensures r == "" || !IsSpace(r[|r| - 1])
    ensures forall i :: |r| <= i < |s| ==> IsSpace(s[i])
    decreases |s|
  {
    if |s| > 0 && IsSpace(s[|s| - 1]) then RStrip(s[..|s| - 1]) else s
  }

  /** str.strip() */
  function Strip(s: string): string {
    RStrip(LStrip(s))
  }

  /** A string that neither starts nor ends with whitespace strips to itself. */
  lemma StripUnpadded(s: string)
    requires s == "" || (!IsSpace(s[0]) && !IsSpace(s[|s| - 1]))
    ensures LStrip(s) == s && RStrip(s) == s && Strip(s) == s
  {
  }

  /** str.rstrip(c) for a single character c */
  function RStripChar(s: string, c: char): (r: string)
    ensures |r| <= |s| && r == s[..|r|]
    ensures r == "" || r[|r| - 1] != c
    ensures forall i :: |r| <= i < |s| ==> s[i] == c
    decreases |s|
  {
    if |s| > 0 && s[|s| - 1] == c then RStripChar(s[..|s| - 1], c) else s
  }

  /** str.lstrip(c) for a single character c */
  function LStripChar(s: string, c: char): (r: string)
    ensures |r| <= |s| && r == s[|s| - |r|..]
    ensures r == "" || r[0] != c
    decreases |s|
  {
    if |s| > 0 && s[0] == c then LStripChar(s[1..], c) else s
  }

  /** str.strip(c) for a single character c */
  function StripChar(s: string, c: char): string {
    RStripChar(LStripChar(s, c), c)
  }

  // ------------------------------------------------------------- case mapping

  function UpperChar(c: char): char {
    if 'a' <= c <= 'z' then (c as int - 32) as char else c
  }

  function LowerChar(c: char): char {
    if 'A' <= c <= 'Z' then (c as int + 32) as char else c
  }

  function Upper(s: string): (r: string)
    ensures |r| == |s|
  {
    seq(|s|, i requires 0 <= i < |s| => UpperChar(s[i]))
  }

  function Lower(s: string): (r: string)
    ensures |r| == |s|
  {
    seq(|s|, i requires 0 <= i < |s| => LowerChar(s[i]))
  }

  /** Lower-casing leaves text without capitals as it is. */
  lemma LowerWithoutCapitals(s: string)
    requires forall i :: 0 <= i < |s| ==> !('A' <= s[i] <= 'Z')
    ensures Lower(s) == s
  {
  }

  // ------------------------------------------------------- prefixes, suffixes

  predicate StartsWith(s: string, p: string) {
    |p| <= |s| && s[..|p|] == p
  }

  predicate EndsWith(s: string, p: string) {
    |p| <= |s| && s[|s| - |p|..] == p
  }

  /** Python `needle in hay` on strings (substring test). */
  predicate Contains(hay: string, needle: string)
    decreases |hay|
  {
    StartsWith(hay, needle) || (|hay| > 0 && Contains(hay[1..], needle))
  }

  /** A string holds no substring with a character it lacks. */
  lemma {:induction false} LackedCharNotContained(hay: string, needle: string, c: char)
    requires c in needle && c !in hay
    ensures !Contains(hay, needle)
    decreases |hay|
  {
    if |hay| > 0 {
      LackedCharNotContained(hay[1..], needle, c);
    }
  }

  // ------------------------------------------------------------------ split

  /** str.split(c) for a one-character separator: always at least one piece,
      and no piece contains the separator. */
  function Split(s: string, c: char): (r: seq<string>)
    ensures |r| >= 1
    ensures forall i :: 0 <= i < |r| ==> c !in r[i]
    decreases |s|
  {
    if |s| == 0 then [""]
    else
      var rest := Split(s[1..], c);
      if s[0] == c then [""] + rest
      else [[s[0]] + rest[0]] + rest[1..]
  }

  /** c.join(parts) */
  function Join(parts: seq<string>, c: char): string
    decreases |parts|
  {
    if |parts| == 0 then ""
    else if |parts| == 1 then parts[0]
    else parts[0] + [c] + Join(parts[1..], c)
  }

  /** Splitting and re-joining on the same separator gives the string back. */
  lemma {:induction false} JoinSplit(s: string, c: char)
    ensures Join(Split(s, c), c) == s
    decreases |s|
  {
    if |s| > 0 {
      JoinSplit(s[1..], c);
      var rest := Split(s[1..], c);
      if s[0] == c {
        assert Split(s, c) == [""] + rest;
        assert ([""] + rest)[1..] == rest;
      } else if |rest| == 1 {
        assert Split(s, c) == [[s[0]] + rest[0]];
      } else {
        var r := Split(s, c);
        assert r == [[s[0]] + rest[0]] + rest[1..];
        assert r[1..] == rest[1..];
        assert Join(rest, c) == rest[0] + [c] + Join(rest[1..], c);
        assert s == [s[0]] + s[1..];
      }
    }
  }

  /** A string without the separator splits into itself alone. */
  lemma {:induction false} SplitWithoutSeparator(s: string, c: char)
    requires c !in s
    ensures Split(s, c) == [s]
    decreases |s|
  {
    if |s| > 0 {
      assert c !in s[1..];
      SplitWithoutSeparator(s[1..], c);
      assert [s[0]] + s[1..] == s;
    }
  }

  /** Splitting at the first separator: the part before it comes first. */
  lemma {:induction false} SplitAtFirst(a: string, c: char, b: string)
    requires c !in a
    ensures Split(a + [c] + b, c) == [a] + Split(b, c)
    decreases |a|
  {
    if |a| == 0 {
      assert (a + [c] + b)[1..] == b;
    } else {
      assert (a + [c] + b)[1..] == a[1..] + [c] + b;
      assert c !in a[1..];
      SplitAtFirst(a[1..], c, b);
      assert [a[0]] + a[1..] == a;
    }
  }

  /** part.split(c, 1)[1]: everything after the first separator ("" when
      there is none; the callers only use it after checking that one exists). */
  function AfterFirst(s: string, c: char): (r: string)
    ensures |r| <= |s|
    decreases |s|
  {
    if |s| == 0 then "" else if s[0] == c then s[1..] else AfterFirst(s[1..], c)
  }

  lemma {:induction false} AfterFirstSeparator(a: string, c: char, b: string)
    requires c !in a
    ensures AfterFirst(a + [c] + b, c) == b
    decreases |a|
  {
    if |a| == 0 {
      assert a + [c] + b == [c] + b;
    } else {
      assert (a + [c] + b)[1..] == a[1..] + [c] + b;
      AfterFirstSeparator(a[1..], c, b);
    }
  }

  /** A prefix fixes the characters it covers. */
  lemma PrefixCharAt(s: string, p: string, k: nat)
    requires StartsWith(s, p) && k < |p|
    ensures s[k] == p[k]
  {
    assert s[..|p|][k] == s[k];
  }

  /** The longest prefix of s without whitespace. */
  function TakeWord(s: string): (w: string)
    ensures |w| <= |s| && w == s[..|w|]
    ensures forall i :: 0 <= i < |w| ==> !IsSpace(w[i])
    ensures |w| < |s| ==> IsSpace(s[|w|])
    decreases |s|
  {
    if |s| == 0 || IsSpace(s[0]) then "" else [s[0]] + TakeWord(s[1..])
  }

  /** str.split() with no argument: the maximal runs of non-whitespace, in
      order; never an empty word. */
  function Words(s: string): (r: seq<string>)
    ensures forall i :: 0 <= i < |r| ==> r[i] != []
    decreases |s|
  {
    var t := LStrip(s);
    if t == "" then []
    else
      var w := TakeWord(t);
      [w] + Words(t[|w|..])
  }

  // ------------------------------------------------------- numbers as text

  predicate IsDigit(c: char) {
    '0' <= c <= '9'
  }

  predicate AllDigits(s: string) {
    forall i :: 0 <= i < |s| ==> IsDigit(s[i])
  }

  function DigitChar(d: nat): (c: char)
    requires d < 10
    ensures IsDigit(c) && c as int - '0' as int == d
  {
    ('0' as int + d) as char
  }

  /** The value of a string of decimal digits. */
  function DigitsValue(s: string): nat
    requires AllDigits(s)
    decreases |s|
  {
    if |s| == 0 then 0 else DigitsValue(s[..|s| - 1]) * 10 + (s[|s| - 1] as int - '0' as int)
  }

  /** str(n) for a natural number: decimal digits, never empty. */
  function NatToString(n: nat): (s: string)
    ensures s != "" && AllDigits(s)
    decreases n
  {
    if n < 10 then [DigitChar(n)] else NatToString(n / 10) + [DigitChar(n % 10)]
  }

  /** int() on a digit string: leading zeros are accepted, so this reads
      back NatToString but also other spellings of the same number. */
  function ParseNat(s: string): Option<nat> {
    if s != "" && AllDigits(s) then Some(DigitsValue(s)) else None
  }

  /** A digit string as NatToString writes it: "0", or no leading zero. */
  predicate Canonical(s: string) {
    s == "0" || (s != "" && AllDigits(s) && s[0] != '0')
  }

  /** Reads exactly the texts NatToString writes, and nothing else. */
  function ParseCanonicalNat(s: string): (r: Option<nat>)
    ensures r.Some? <==> Canonical(s)
  {
    if Canonical(s) then ParseNat(s) else None
  }

  /** A digit string without a leading zero has a positive value. */
  lemma {:induction false} LeadingDigitPositive(s: string)
    requires s != "" && AllDigits(s) && s[0] != '0'
    ensures DigitsValue(s) >= 1
    decreases |s|
  {
    if |s| > 1 {
      var p := s[..|s| - 1];
      assert p[0] == s[0];
      LeadingDigitPositive(p);
    } else {
      assert s[..0] == "";
    }
  }

  /** A canonical digit string is the decimal form of its value. */
  lemma {:induction false} CanonicalIsPrinted(s: string)
    requires Canonical(s)
    ensures s == NatToString(DigitsValue(s))
    decreases |s|
  {
    var n := DigitsValue(s);
    if |s| == 1 {
      assert s[..|s| - 1] == "";
      assert n == DigitsValue("") * 10 + (s[0] as int - '0' as int);
      assert NatToString(n) == [DigitChar(n)];
    } else {
      var p := s[..|s| - 1];
      assert p[0] == s[0];
      LeadingDigitPositive(p);
      CanonicalIsPrinted(p);
      var d := s[|s| - 1] as int - '0' as int;
      assert n == DigitsValue(p) * 10 + d;
      assert n / 10 == DigitsValue(p) && n % 10 == d;
      assert DigitChar(d) == s[|s| - 1];
      assert s == p + [s[|s| - 1]];
    }
  }

  /** The decimal form of a number is canonical. */
  lemma {:induction false} PrintedIsCanonical(n: nat)
    ensures Canonical(NatToString(n))
    decreases n
  {
    if n >= 10 {
      PrintedIsCanonical(n / 10);
      assert NatToString(n)[0] == NatToString(n / 10)[0];
    }
  }

  /** ParseCanonicalNat and NatToString are inverse: each number has exactly
      one text that reads as it. */
  lemma CanonicalRoundTrip(s: string, n: nat)
    ensures ParseCanonicalNat(s) == Some(n) <==> s == NatToString(n)
  {
    if ParseCanonicalNat(s) == Some(n) {
      CanonicalIsPrinted(s);
    }
    if s == NatToString(n) {
      PrintedIsCanonical(n);
      ParseNatToString(n);
    }
  }

  /** Reading back the decimal form of n gives n. */
  lemma {:induction false} ParseNatToString(n: nat)
    ensures ParseNat(NatToString(n)) == Some(n)
    decreases n
  {
    if n >= 10 {
      ParseNatToString(n / 10);
      var p := NatToString(n / 10);
      var s := p + [DigitChar(n % 10)];
      assert s[..|s| - 1] == p;
      assert DigitsValue(s) == DigitsValue(p) * 10 + n % 10;
    } else {
      var s := [DigitChar(n)];
      assert s[..0] == "";
      assert DigitsValue(s) == DigitsValue(s[..0]) * 10 + (s[0] as int - '0' as int);
      assert NatToString(n) == s;
    }
  }

  /** Distinct naturals print differently. */
  lemma NatToStringInjective(m: nat, n: nat)
    requires NatToString(m) == NatToString(n)
    ensures m == n
  {
    ParseNatToString(m);
    ParseNatToString(n);
  }

  function Pow10(k: nat): (p: nat)
    ensures p >= 1
  {
    if k == 0 then 1 else 10 * Pow10(k - 1)
  }

  /** An unsigned decimal literal: digits, optionally with one '.'; at least
      one digit in all. */
  function ParseUnsignedDecimal(b: string): Option<real> {
    var parts := Split(b, '.');
    if |parts| == 1 then
      if parts[0] != "" && AllDigits(parts[0]) then Some(DigitsValue(parts[0]) as real) else None
    else if |parts| == 2 then
      var ip, fp := parts[0], parts[1];
      if (ip != "" || fp != "") && AllDigits(ip) && AllDigits(fp)
      then Some(DigitsValue(ip) as real + DigitsValue(fp) as real / Pow10(|fp|) as real)
      else None
    else None
  }

  /** Python float(s) restricted to decimal literals: surrounding whitespace
      is ignored and an optional sign is accepted. */
  function ParseDecimal(s: string): Option<real> {
    var t := Strip(s);
    if t != "" && (t[0] == '-' || t[0] == '+') then
      match ParseUnsignedDecimal(t[1..])
      case Some(v) => Some(if t[0] == '-' then -v else v)
      case None => None
    else ParseUnsignedDecimal(t)
  }

  /** Python int(s) on an integer literal with optional sign and whitespace. */
  function ParseInt(s: string): Option<int> {
    var t := Strip(s);
    if t != "" && (t[0] == '-' || t[0] == '+') then
      match ParseNat(t[1..])
      case Some(v) => Some(if t[0] == '-' then -(v as int) else v as int)
      case None => None
    else
      match ParseNat(t)
      case Some(v) => Some(v)
      case None => None
  }

  lemma DigitsHaveNoSpace(s: string)
    requires AllDigits(s)
    ensures LStrip(s) == s && RStrip(s) == s && Strip(s) == s
  {
    if |s| > 0 {
      assert !IsSpace(s[0]);
      assert !IsSpace(s[|s| - 1]);
    }
  }

  /** float(str(n)) == n */
  lemma ParseDecimalOfNat(n: nat)
    ensures ParseDecimal(NatToString(n)) == Some(n as real)
  {
    var s := NatToString(n);
    DigitsHaveNoSpace(s);
    assert !IsDigit('.');
    SplitWithoutSeparator(s, '.');
    ParseNatToString(n);
    assert ParseUnsignedDecimal(s) == Some(n as real);
    assert IsDigit(s[0]);
    assert Strip(s) == s;
  }

  // ------------------------------------------------------------------ paths

  /** Python s.replace("//", "/"): every non-overlapping "//", scanned from
      the left, becomes "/". */
  function ReplaceDoubleSlash(s: string): (r: string)
    ensures |r| <= |s|
    decreases |s|
  {
    if |s| >= 2 && s[0] == '/' && s[1] == '/' then "/" + ReplaceDoubleSlash(s[2..])
    else if |s| == 0 then ""
    else [s[0]] + ReplaceDoubleSlash(s[1..])
  }

  predicate HasDoubleSlash(s: string) {
    exists i :: 0 <= i < |s| - 1 && s[i] == '/' && s[i + 1] == '/'
  }

  /** Text without "//" is left as it is. */
  lemma {:induction false} ReplaceWithoutDoubleSlash(s: string)
    requires !HasDoubleSlash(s)
    ensures ReplaceDoubleSlash(s) == s
    decreases |s|
  {
    if |s| > 0 {
      ReplaceWithoutDoubleSlash(s[1..]);
      assert [s[0]] + s[1..] == s;
    }
  }
}
