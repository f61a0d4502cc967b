/** Values and string helpers shared by every part of the reminder bot model:
    an Option type for Python's None, decimal rendering of integers (Python's
    str(int)), ASCII lower-casing, prefix and substring tests, and Python's
    str.split(sep) / sep.join(parts) for a one-character separator. */
module Common {

  /** Python's None versus a present value. */
  datatype Option<+T> = None | Some(value: T)

  /** A nullable string column whose value Python treats as true: neither
      NULL nor empty. */
  predicate NonEmpty(o: Option<string>) { o.Some? && o.value != "" }

  // ---------------------------------------------------------------------
  // Decimal digits

  /** A decimal digit as Python reads one: a character of Unicode general
      category Nd (Unicode 15.0), which is what str.isdecimal(), the regular
      expression class \d and int() accept. These characters come in 68 runs
      of ten consecutive code points, the digits zero to nine of one script. */
  predicate IsDigit(c: char) {
    var n := c as int;
    (0x30 <= n < 0x3A) || (0x660 <= n < 0x66A) || (0x6F0 <= n < 0x6FA) || (0x7C0 <= n < 0x7CA)
    || (0x966 <= n < 0x970) || (0x9E6 <= n < 0x9F0) || (0xA66 <= n < 0xA70) || (0xAE6 <= n < 0xAF0)
    || (0xB66 <= n < 0xB70) || (0xBE6 <= n < 0xBF0) || (0xC66 <= n < 0xC70) || (0xCE6 <= n < 0xCF0)
    || (0xD66 <= n < 0xD70) || (0xDE6 <= n < 0xDF0) || (0xE50 <= n < 0xE5A) || (0xED0 <= n < 0xEDA)
    || (0xF20 <= n < 0xF2A) || (0x1040 <= n < 0x104A) || (0x1090 <= n < 0x109A) || (0x17E0 <= n < 0x17EA)
    || (0x1810 <= n < 0x181A) || (0x1946 <= n < 0x1950) || (0x19D0 <= n < 0x19DA) || (0x1A80 <= n < 0x1A8A)
    || (0x1A90 <= n < 0x1A9A) || (0x1B50 <= n < 0x1B5A) || (0x1BB0 <= n < 0x1BBA) || (0x1C40 <= n < 0x1C4A)
    || (0x1C50 <= n < 0x1C5A) || (0xA620 <= n < 0xA62A) || (0xA8D0 <= n < 0xA8DA) || (0xA900 <= n < 0xA90A)
    || (0xA9D0 <= n < 0xA9DA) || (0xA9F0 <= n < 0xA9FA) || (0xAA50 <= n < 0xAA5A) || (0xABF0 <= n < 0xABFA)
    || (0xFF10 <= n < 0xFF1A) || (0x104A0 <= n < 0x104AA) || (0x10D30 <= n < 0x10D3A) || (0x11066 <= n < 0x11070)
    || (0x110F0 <= n < 0x110FA) || (0x11136 <= n < 0x11140) || (0x111D0 <= n < 0x111DA) || (0x112F0 <= n < 0x112FA)
    || (0x11450 <= n < 0x1145A) || (0x114D0 <= n < 0x114DA) || (0x11650 <= n < 0x1165A) || (0x116C0 <= n < 0x116CA)
    || (0x11730 <= n < 0x1173A) || (0x118E0 <= n < 0x118EA) || (0x11950 <= n < 0x1195A) || (0x11C50 <= n < 0x11C5A)
    || (0x11D50 <= n < 0x11D5A) || (0x11DA0 <= n < 0x11DAA) || (0x11F50 <= n < 0x11F5A) || (0x16A60 <= n < 0x16A6A)
    || (0x16AC0 <= n < 0x16ACA) || (0x16B50 <= n < 0x16B5A) || (0x1D7CE <= n < 0x1D7D8) || (0x1D7D8 <= n < 0x1D7E2)
    || (0x1D7E2 <= n < 0x1D7EC) || (0x1D7EC <= n < 0x1D7F6) || (0x1D7F6 <= n < 0x1D800) || (0x1E140 <= n < 0x1E14A)
    || (0x1E2F0 <= n < 0x1E2FA) || (0x1E4F0 <= n < 0x1E4FA) || (0x1E950 <= n < 0x1E95A) || (0x1FBF0 <= n < 0x1FBFA)
  }

  /** The code point of the digit zero of the run that n falls in. */
  function DigitZero(n: int): int {
    if n >= 0x1FBF0 then 0x1FBF0
    else if n >= 0x1E950 then 0x1E950
    else if n >= 0x1E4F0 then 0x1E4F0
    else if n >= 0x1E2F0 then 0x1E2F0
    else if n >= 0x1E140 then 0x1E140
    else if n >= 0x1D7F6 then 0x1D7F6
    else if n >= 0x1D7EC then 0x1D7EC
    else if n >= 0x1D7E2 then 0x1D7E2
    else if n >= 0x1D7D8 then 0x1D7D8
    else if n >= 0x1D7CE then 0x1D7CE
    else if n >= 0x16B50 then 0x16B50
    else if n >= 0x16AC0 then 0x16AC0
    else if n >= 0x16A60 then 0x16A60
    else if n >= 0x11F50 then 0x11F50
    else if n >= 0x11DA0 then 0x11DA0
    else if n >= 0x11D50 then 0x11D50
    else if n >= 0x11C50 then 0x11C50
    else if n >= 0x11950 then 0x11950
    else if n >= 0x118E0 then 0x118E0
    else if n >= 0x11730 then 0x11730
    else if n >= 0x116C0 then 0x116C0
    else if n >= 0x11650 then 0x11650
    else if n >= 0x114D0 then 0x114D0
    else if n >= 0x11450 then 0x11450
    else if n >= 0x112F0 then 0x112F0
    else if n >= 0x111D0 then 0x111D0
    else if n >= 0x11136 then 0x11136
    else if n >= 0x110F0 then 0x110F0
    else if n >= 0x11066 then 0x11066
    else if n >= 0x10D30 then 0x10D30
    else if n >= 0x104A0 then 0x104A0
    else if n >= 0xFF10 then 0xFF10
    else if n >= 0xABF0 then 0xABF0
    else if n >= 0xAA50 then 0xAA50
    else if n >= 0xA9F0 then 0xA9F0
    else if n >= 0xA9D0 then 0xA9D0
    else if n >= 0xA900 then 0xA900
    else if n >= 0xA8D0 then 0xA8D0
    else if n >= 0xA620 then 0xA620
    else if n >= 0x1C50 then 0x1C50
    else if n >= 0x1C40 then 0x1C40
    else if n >= 0x1BB0 then 0x1BB0
    else if n >= 0x1B50 then 0x1B50
    else if n >= 0x1A90 then 0x1A90
    else if n >= 0x1A80 then 0x1A80
    else if n >= 0x19D0 then 0x19D0
    else if n >= 0x1946 then 0x1946
    else if n >= 0x1810 then 0x1810
    else if n >= 0x17E0 then 0x17E0
    else if n >= 0x1090 then 0x1090
    else if n >= 0x1040 then 0x1040
    else if n >= 0xF20 then 0xF20
    else if n >= 0xED0 then 0xED0
    else if n >= 0xE50 then 0xE50
    else if n >= 0xDE6 then 0xDE6
    else if n >= 0xD66 then 0xD66
    else if n >= 0xCE6 then 0xCE6
    else if n >= 0xC66 then 0xC66
    else if n >= 0xBE6 then 0xBE6
    else if n >= 0xB66 then 0xB66
    else if n >= 0xAE6 then 0xAE6
    else if n >= 0xA66 then 0xA66
    else if n >= 0x9E6 then 0x9E6
    else if n >= 0x966 then 0x966
    else if n >= 0x7C0 then 0x7C0
    else if n >= 0x6F0 then 0x6F0
    else if n >= 0x660 then 0x660
    else 0x30
  }

  predicate AllDigits(s: string) { forall i :: 0 <= i < |s| ==> IsDigit(s[i]) }

  /** The digits str() writes. */
  predicate AsciiDigits(s: string) { forall i :: 0 <= i < |s| ==> '0' <= s[i] <= '9' }

  lemma AsciiAllDigits(s: string)
    requires AsciiDigits(s)
    ensures AllDigits(s)
  {
  }

  /** The ASCII digit of d, the form str() writes. */
  function DigitChar(d: nat): (c: char)
    requires d < 10
    ensures '0' <= c <= '9' && IsDigit(c) && DigitValue(c) == d
  {
    ('0' as int + d) as char
  }

  /** The value of a digit: its place in its run. */
  function DigitValue(c: char): (d: nat)
    requires IsDigit(c)
    ensures d < 10
    ensures '0' <= c <= '9' ==> d == (c as int) - ('0' as int)
  {
    (c as int) - DigitZero(c as int)
  }

  /** str(n) for a non-negative integer: no leading zeros, at least one digit. */
  function NatToString(n: nat): (s: string)
    ensures |s| >= 1 && AsciiDigits(s)
    ensures |s| > 1 ==> s[0] != '0'
    ensures n < 10 ==> |s| == 1
    ensures 10 <= n < 100 ==> |s| == 2
  {
    if n < 10 then [DigitChar(n)] else NatToString(n / 10) + [DigitChar(n % 10)]
  }

  /** The value of a string of decimal digits (int(s) restricted to digits). */
  function StringToNat(s: string): nat
    requires AllDigits(s)
  {
    if |s| == 0 then 0 else 10 * StringToNat(s[..|s| - 1]) + DigitValue(s[|s| - 1])
  }

  /** Reading back the decimal rendering of n gives n. */
  lemma {:induction false} NatStringRoundTrip(n: nat)
    ensures StringToNat(NatToString(n)) == n
  {
    var s := NatToString(n);
    if n >= 10 {
      NatStringRoundTrip(n / 10);
      assert s[..|s| - 1] == NatToString(n / 10);
    }
  }

  /** The decimal rendering is injective. */
  lemma NatToStringInjective(a: nat, b: nat)
    requires NatToString(a) == NatToString(b)
    ensures a == b
  {
    NatStringRoundTrip(a);
    NatStringRoundTrip(b);
  }

  /** str(i) for any integer: a '-' sign, then the digits of |i|. */
  function IntToString(i: int): (s: string)
    ensures |s| >= 1
    ensures i >= 0 ==> s == NatToString(i)
    ensures i < 0 ==> s == "-" + NatToString(-i)
  {
    if i < 0 then "-" + NatToString(-i) else NatToString(i)
  }

  /** Different integers have different str() texts. */
  lemma IntToStringInjective(a: int, b: int)
    requires IntToString(a) == IntToString(b)
    ensures a == b
  {
    if a >= 0 && b >= 0 {
      NatToStringInjective(a, b);
    } else if a < 0 && b < 0 {
      assert NatToString(-a) == IntToString(a)[1..];
      assert NatToString(-b) == IntToString(b)[1..];
      NatToStringInjective(-a, -b);
    } else {
      assert false;
    }
  }

  // ---------------------------------------------------------------------
  // Case and whitespace

  /** ASCII lower-casing of one character. */
  function LowerChar(c: char): (r: char)
    ensures 'A' <= c <= 'Z' ==> r as int == c as int + 32
    ensures !('A' <= c <= 'Z') ==> r == c
  {
    if 'A' <= c <= 'Z' then (c as int + 32) as char else c
  }

  /** ASCII lower-casing of a string, character by character. */
  function Lower(s: string): (r: string)
    ensures |r| == |s|
    ensures forall i :: 0 <= i < |s| ==> r[i] == LowerChar(s[i])
  {
    if |s| == 0 then [] else [LowerChar(s[0])] + Lower(s[1..])
  }

  lemma LowerAppend(a: string, b: string)
    ensures Lower(a + b) == Lower(a) + Lower(b)
  {
    assert Lower(a + b) == Lower(a) + Lower(b);
  }

  /** The characters Python's str.isspace() (and the regex class \s) accepts. */
  predicate IsSpace(c: char) {
    c == ' ' || ('\t' <= c <= '\r') || ('\U{1C}' <= c <= '\U{1F}')
    || c == '\U{85}' || c == '\U{A0}' || c == '\U{1680}'
    || ('\U{2000}' <= c <= '\U{200A}') || c == '\U{2028}' || c == '\U{2029}'
    || c == '\U{202F}' || c == '\U{205F}' || c == '\U{3000}'
  }

  /** Python's str.strip(): leading and trailing whitespace removed. */
  function Strip(s: string): (r: string)
    ensures |r| <= |s|
    ensures |r| > 0 ==> !IsSpace(r[0]) && !IsSpace(r[|r| - 1])
    ensures forall i :: 0 <= i < |s| && !IsSpace(s[i]) ==> |r| > 0
  {
    StripRight(StripLeft(s))
  }

  function StripLeft(s: string): (r: string)
    ensures |r| <= |s| && r == s[|s| - |r|..]
    ensures |r| > 0 ==> !IsSpace(r[0])
    ensures forall i :: 0 <= i < |s| - |r| ==> IsSpace(s[i])
  {
    if |s| > 0 && IsSpace(s[0]) then StripLeft(s[1..]) else s
  }

  function StripRight(s: string): (r: string)
    ensures |r| <= |s| && r == s[..|r|]
    ensures |r| > 0 ==> !IsSpace(r[|r| - 1])
    ensures forall i :: |r| <= i < |s| ==> IsSpace(s[i])
  {
    if |s| > 0 && IsSpace(s[|s| - 1]) then StripRight(s[..|s| - 1]) else s
  }

  /** A digit is neither white space, an upper-case letter, a sign, an
      underscore nor a colon. */
  lemma DigitIsPlain(c: char)
    requires IsDigit(c)
    ensures !IsSpace(c) && LowerChar(c) == c
    ensures c != '-' && c != '+' && c != '_' && c != ':'
  {
  }

  /** A string without surrounding whitespace strips to itself. */
  lemma StripNoSpace(s: string)
    requires |s| > 0 ==> !IsSpace(s[0]) && !IsSpace(s[|s| - 1])
    ensures Strip(s) == s
  {
  }

  // ---------------------------------------------------------------------
  // Python's int(s) on a string

  /** Digits with single underscores between them, as int() accepts. */
  predicate DigitGroups(b: string) {
    |b| >= 1 && IsDigit(b[0]) && IsDigit(b[|b| - 1])
    && (forall i :: 0 <= i < |b| ==> IsDigit(b[i]) || b[i] == '_')
    && (forall i :: 0 <= i < |b| - 1 ==> b[i] == '_' ==> b[i + 1] != '_')
  }

  /** The digits of b, underscores dropped. */
  function DropUnderscores(b: string): (d: string)
    requires forall i :: 0 <= i < |b| ==> IsDigit(b[i]) || b[i] == '_'
    ensures AllDigits(d) && |d| <= |b|
  {
    if |b| == 0 then [] else (if b[0] == '_' then [] else [b[0]]) + DropUnderscores(b[1..])
  }

  /** int(s) for a decimal string: surrounding whitespace and one sign allowed;
      None where Python raises ValueError. */
  function PyInt(s: string): (r: Option<int>)
  {
    var t := Strip(s);
    var neg := |t| > 0 && t[0] == '-';
    var body := if |t| > 0 && (t[0] == '-' || t[0] == '+') then t[1..] else t;
    if DigitGroups(body) then
      var v: int := StringToNat(DropUnderscores(body));
      Some(if neg then -v else v)
    else None
  }

  /** f"{n:02d}" for a non-negative n: at least two digits, zero-padded. */
  function Pad2(n: nat): (s: string)
    ensures |s| >= 2 && AsciiDigits(s)
    ensures n < 100 ==> |s| == 2
  {
    if n < 10 then "0" + NatToString(n) else NatToString(n)
  }

  /** A string of digits reads back through int() as its value. */
  lemma {:induction false} PyIntDigits(d: string)
    requires |d| >= 1 && AllDigits(d)
    ensures PyInt(d) == Some(StringToNat(d))
  {
    forall i | 0 <= i < |d| ensures !IsSpace(d[i]) && d[i] != '-' && d[i] != '+' && d[i] != '_' {
      DigitIsPlain(d[i]);
    }
    StripNoSpace(d);
    assert DigitGroups(d);
    DropUnderscoresDigits(d);
  }

  lemma {:induction false} DropUnderscoresDigits(d: string)
    requires AllDigits(d)
    ensures DropUnderscores(d) == d
  {
    if |d| > 0 {
      DropUnderscoresDigits(d[1..]);
      assert [d[0]] + d[1..] == d;
    }
  }

  /** int(str(n)) == n and int(f"{n:02d}") == n. */
  lemma PyIntRoundTrip(n: nat)
    ensures PyInt(NatToString(n)) == Some(n)
    ensures PyInt(Pad2(n)) == Some(n)
  {
    NatStringRoundTrip(n);
    PyIntDigits(NatToString(n));
    PyIntDigits(Pad2(n));
    if n < 10 {
      LeadingZero(NatToString(n));
    }
  }

  /** A leading zero does not change the value of a digit string. */
  lemma {:induction false} LeadingZero(d: string)
    requires AllDigits(d)
    ensures StringToNat("0" + d) == StringToNat(d)
  {
    if |d| > 0 {
      LeadingZero(d[..|d| - 1]);
      assert ("0" + d)[..|"0" + d| - 1] == "0" + d[..|d| - 1];
    }
  }

  // ---------------------------------------------------------------------
  // Prefixes and substrings

  predicate StartsWith(s: string, p: string) { |p| <= |s| && s[..|p|] == p }

  /** Python's `t in s` for strings. */
  predicate Contains(s: string, t: string) {
    exists k :: 0 <= k <= |s| && StartsWith(s[k..], t)
  }

  // ---------------------------------------------------------------------
  // Python's str.split(sep) and sep.join(parts) for a one-character sep

  /** s.split(sep): never empty; "" splits to [""]; consecutive separators give "". */
  function Split(s: string, sep: char): (parts: seq<string>)
    ensures |parts| >= 1
    ensures forall i :: 0 <= i < |parts| ==> sep !in parts[i]
  {
    if |s| == 0 then [""]
    else if s[0] == sep then [""] + Split(s[1..], sep)
    else
      var rest := Split(s[1..], sep);
      [[s[0]] + rest[0]] + rest[1..]
  }

  /** sep.join(parts); the join of no parts is "". */
  function Join(parts: seq<string>, sep: char): string
  {
    if |parts| == 0 then ""
    else if |parts| == 1 then parts[0]
    else parts[0] + [sep] + Join(parts[1..], sep)
  }

  lemma {:induction false} SplitPrepend(c: char, s: string, sep: char)
    requires c != sep
    ensures Split([c] + s, sep) == [[c] + Split(s, sep)[0]] + Split(s, sep)[1..]
  {
    assert ([c] + s)[1..] == s;
  }

  /** Splitting a word that has no separator in it gives back the word alone. */
  lemma {:induction false} SplitNoSeparator(w: string, sep: char)
    requires sep !in w
    ensures Split(w, sep) == [w]
  {
    if |w| > 0 {
      SplitNoSeparator(w[1..], sep);
      assert [w[0]] + w[1..] == w;
    }
  }

  /** Splitting w + sep + rest, with no separator in w, peels off w. */
  lemma {:induction false} SplitAfterWord(w: string, rest: string, sep: char)
    requires sep !in w
    ensures Split(w + [sep] + rest, sep) == [w] + Split(rest, sep)
  {
    if |w| == 0 {
      assert w + [sep] + rest == [sep] + rest;
      assert ([sep] + rest)[1..] == rest;
    } else {
      SplitAfterWord(w[1..], rest, sep);
      assert w + [sep] + rest == [w[0]] + (w[1..] + [sep] + rest);
      SplitPrepend(w[0], w[1..] + [sep] + rest, sep);
      assert [w[0]] + w[1..] == w;
    }
  }

  /** Join then split: a non-empty list of separator-free words comes back unchanged. */
  lemma {:induction false} SplitJoin(parts: seq<string>, sep: char)
    requires |parts| >= 1
    requires forall i :: 0 <= i < |parts| ==> sep !in parts[i]
    ensures Split(Join(parts, sep), sep) == parts
  {
    if |parts| == 1 {
      SplitNoSeparator(parts[0], sep);
    } else {
      SplitJoin(parts[1..], sep);
      SplitAfterWord(parts[0], Join(parts[1..], sep), sep);
      assert [parts[0]] + parts[1..] == parts;
    }
  }

  /** Split then join: the string comes back unchanged. */
  lemma {:induction false} JoinSplit(s: string, sep: char)
    ensures Join(Split(s, sep), sep) == s
  {
    if |s| > 0 {
      JoinSplit(s[1..], sep);
      var rest := Split(s[1..], sep);
      if s[0] == sep {
        assert Split(s, sep) == [""] + rest;
        assert ([""] + rest)[1..] == rest;
        assert s == [sep] + s[1..];
      } else {
        var parts := [[s[0]] + rest[0]] + rest[1..];
        assert Split(s, sep) == parts;
        if |rest| == 1 {
          assert s == [s[0]] + rest[0];
        } else {
          assert parts[1..] == rest[1..];
          assert Join(rest, sep) == rest[0] + [sep] + Join(rest[1..], sep);
          assert s == [s[0]] + rest[0] + [sep] + Join(rest[1..], sep);
        }
      }
    }
  }

  /** The join of non-empty words is empty exactly when there are no words. */
  lemma {:induction false} JoinEmpty(parts: seq<string>, sep: char)
    requires forall i :: 0 <= i < |parts| ==> |parts[i]| >= 1
    ensures (Join(parts, sep) == "") <==> (|parts| == 0)
  {
    if |parts| > 1 {
      assert |Join(parts, sep)| >= |parts[0]|;
    }
  }

  /** Whether sep occurs in the join of words is decided by the number of words. */
  lemma {:induction false} JoinHasSeparator(parts: seq<string>, sep: char)
    requires forall i :: 0 <= i < |parts| ==> sep !in parts[i]
    ensures (sep in Join(parts, sep)) <==> (|parts| >= 2)
  {
    if |parts| >= 2 {
      var j := Join(parts, sep);
      assert j == parts[0] + [sep] + Join(parts[1..], sep);
      assert j[|parts[0]|] == sep;
    } else if |parts| == 1 {
      assert Join(parts, sep) == parts[0];
    }
  }

  /** No value occurs twice. */
  predicate NoDuplicates<T(==)>(s: seq<T>) {
    forall i, j :: 0 <= i < j < |s| ==> s[i] != s[j]
  }

  /** A duplicate-free sequence has as many elements as its set. */
  lemma {:induction false} DistinctCardinality<T>(s: seq<T>)
    requires NoDuplicates(s)
    ensures |set x | x in s| == |s|
  {
    if |s| > 0 {
      var tail := s[1..];
      DistinctCardinality(tail);
      assert (set x | x in s) == (set x | x in tail) + {s[0]};
      assert s[0] !in tail by {
        forall j | 0 <= j < |tail| ensures tail[j] != s[0] {
          assert tail[j] == s[j + 1];
        }
      }
    }
  }

  /** Writing a key twice keeps the second value. */
  lemma Overwrite<K, V>(m: map<K, V>, k: K, a: V, b: V)
    ensures m[k := a][k := b] == m[k := b]
  {
  }
}
