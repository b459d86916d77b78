/** The string helpers the record store relies on: Python's whitespace
    stripping and ASCII lower-casing, substring search, joining and
    splitting on one separator character, decimal rendering and masking. */
module Text {

  /** The characters Python's `str.strip()` removes (those for which
      `str.isspace()` holds). */
  predicate IsSpace(c: char) {
    || c == ' ' || c == '\t' || c == '\n' || c == '\r'
    || c == '\U{000B}' || c == '\U{000C}'
    || ('\U{001C}' <= c <= '\U{001F}')
    || c == '\U{0085}' || c == '\U{00A0}' || c == '\U{1680}'
    || ('\U{2000}' <= c <= '\U{200A}')
    || c == '\U{2028}' || c == '\U{2029}' || c == '\U{202F}' || c == '\U{205F}' || c == '\U{3000}'
  }

  predicate AllSpace(s: string) {
    forall i :: 0 <= i < |s| ==> IsSpace(s[i])
  }

  /** `str.lstrip()`: the longest suffix that does not start with whitespace. */
  function TrimLeft(s: string): (r: string)
    ensures |r| <= |s| && r == s[|s| - |r|..]
    ensures r == [] || !IsSpace(r[0])
    ensures forall i :: 0 <= i < |s| - |r| ==> IsSpace(s[i])
  {
    if |s| > 0 && IsSpace(s[0]) then TrimLeft(s[1..]) else s
  }

  /** `str.rstrip()`: the longest prefix that does not end with whitespace. */
  function TrimRight(s: string): (r: string)
    ensures |r| <= |s| && r == s[..|r|]
    ensures r == [] || !IsSpace(r[|r| - 1])
    ensures forall i :: |r| <= i < |s| ==> IsSpace(s[i])
  {
    if |s| > 0 && IsSpace(s[|s| - 1]) then TrimRight(s[..|s| - 1]) else s
  }

  /** `str.strip()`. The result is empty exactly when the input is all
      whitespace, and otherwise starts and ends with a non-space. */
  function Strip(s: string): (r: string)
    ensures r == [] <==> AllSpace(s)
    ensures r != [] ==> !IsSpace(r[0]) && !IsSpace(r[|r| - 1])
  {
    TrimBoth(s);
    TrimRight(TrimLeft(s))
  }

  lemma TrimBoth(s: string)
    ensures TrimRight(TrimLeft(s)) == [] <==> AllSpace(s)
    ensures TrimRight(TrimLeft(s)) != [] ==> !IsSpace(TrimRight(TrimLeft(s))[0])
  {
    var l := TrimLeft(s);
    var r := TrimRight(l);
    if r == [] {
      assert l == [];
      forall i | 0 <= i < |s| ensures IsSpace(s[i]) {
      }
    }
  }

  /** A string that already has no whitespace at either end strips to itself. */
  lemma StripUntouched(s: string)
    requires s != [] && !IsSpace(s[0]) && !IsSpace(s[|s| - 1])
    ensures Strip(s) == s
  {
  }

  /** Stripping twice is stripping once. */
  lemma StripIdempotent(s: string)
    ensures Strip(Strip(s)) == Strip(s)
  {
    if Strip(s) != [] {
      StripUntouched(Strip(s));
    }
  }

  /** Stripping a string that ends in a newline removes that newline and
      nothing else, when the rest has no whitespace at either end. */
  lemma StripTrailingNewline(s: string)
    requires s != [] && !IsSpace(s[0]) && !IsSpace(s[|s| - 1])
    ensures Strip(s + "\n") == s
  {
    var t := s + "\n";
    assert TrimLeft(t) == t;
    assert t[..|t| - 1] == s;
    assert TrimRight(t) == TrimRight(s);
  }

  function LowerChar(c: char): char {
    if 'A' <= c <= 'Z' then (c as int + 32) as char else c
  }

  /** `str.lower()` restricted to ASCII letters. */
  function Lower(s: string): (r: string)
  {
    seq(|s|, i requires 0 <= i < |s| => LowerChar(s[i]))
  }

  predicate OccursAt(p: string, s: string, i: int) {
    0 <= i <= |s| - |p| && s[i..i + |p|] == p
  }

  /** Python's `p in s` for strings. */
  predicate Contains(s: string, p: string) {
    exists i :: 0 <= i <= |s| - |p| && OccursAt(p, s, i)
  }

  /** An occurrence inside a piece is an occurrence inside anything that
      contains the piece at a known offset. */
  lemma ContainsWithin(a: string, mid: string, b: string, p: string)
    requires Contains(mid, p)
    ensures Contains(a + mid + b, p)
  {
    var i :| 0 <= i <= |mid| - |p| && OccursAt(p, mid, i);
    var s := a + mid + b;
    assert s[|a| + i..|a| + i + |p|] == mid[i..i + |p|];
    assert OccursAt(p, s, |a| + i);
  }

  lemma ContainsLeft(x: string, y: string, p: string)
    requires Contains(x, p)
    ensures Contains(x + y, p)
  {
    var i :| 0 <= i <= |x| - |p| && OccursAt(p, x, i);
    assert (x + y)[i..i + |p|] == x[i..i + |p|];
    assert OccursAt(p, x + y, i);
  }

  lemma ContainsRight(x: string, y: string, p: string)
    requires Contains(y, p)
    ensures Contains(x + y, p)
  {
    ContainsWithin(x, y, "", p);
    assert x + y + "" == x + y;
  }

  /** `sep.join(parts)` with a one-character separator. */
  function Join(parts: seq<string>, sep: char): string
  {
    if |parts| == 0 then ""
    else if |parts| == 1 then parts[0]
    else parts[0] + [sep] + Join(parts[1..], sep)
  }

  /** Joining one more part adds a separator and the part at the end. */
  lemma {:induction false} JoinAppend(parts: seq<string>, q: string, sep: char)
    requires |parts| >= 1
    ensures Join(parts + [q], sep) == Join(parts, sep) + [sep] + q
  {
    if |parts| > 1 {
      assert (parts + [q])[1..] == parts[1..] + [q];
      JoinAppend(parts[1..], q, sep);
    }
  }

  /** Position of the first `c` in `s`, or `|s|` when there is none. */
  function IndexOf(s: string, c: char): (i: nat)
    ensures i <= |s|
    ensures i < |s| ==> s[i] == c
    ensures forall j :: 0 <= j < i ==> s[j] != c
  {
    if |s| == 0 then 0 else if s[0] == c then 0 else 1 + IndexOf(s[1..], c)
  }

  /** `s.split(sep)` with a one-character separator. */
  function Split(s: string, sep: char): (parts: seq<string>)
    ensures |parts| >= 1
    decreases |s|
  {
    var i := IndexOf(s, sep);
    if i == |s| then [s] else [s[..i]] + Split(s[i + 1..], sep)
  }

  /** Splitting undoes joining whenever no part holds the separator. */
  lemma {:induction false} SplitJoin(parts: seq<string>, sep: char)
    requires |parts| >= 1
    requires forall k :: 0 <= k < |parts| ==> sep !in parts[k]
    ensures Split(Join(parts, sep), sep) == parts
  {
    var p0 := parts[0];
    if |parts| == 1 {
      assert IndexOf(p0, sep) == |p0|;
    } else {
      var rest := Join(parts[1..], sep);
      var s := p0 + [sep] + rest;
      assert s == Join(parts, sep);
      assert s[|p0|] == sep;
      assert forall j :: 0 <= j < |p0| ==> s[j] == p0[j];
      assert IndexOf(s, sep) == |p0|;
      assert s[..|p0|] == p0;
      assert s[|p0| + 1..] == rest;
      SplitJoin(parts[1..], sep);
      assert parts == [p0] + parts[1..];
    }
  }

  lemma {:induction false} JoinNoSeparator(parts: seq<string>, sep: char, c: char)
    requires c != sep
    requires forall k :: 0 <= k < |parts| ==> c !in parts[k]
    ensures c !in Join(parts, sep)
  {
    if |parts| > 1 {
      JoinNoSeparator(parts[1..], sep, c);
    }
  }

  lemma JoinFirst(parts: seq<string>, sep: char)
    requires |parts| >= 1 && parts[0] != []
    ensures Join(parts, sep) != [] && Join(parts, sep)[0] == parts[0][0]
  {
  }

  lemma {:induction false} JoinLast(parts: seq<string>, sep: char)
    requires |parts| >= 1 && parts[|parts| - 1] != []
    ensures Join(parts, sep) != []
    ensures Join(parts, sep)[|Join(parts, sep)| - 1] == parts[|parts| - 1][|parts[|parts| - 1]| - 1]
  {
    if |parts| > 1 {
      JoinLast(parts[1..], sep);
    }
  }

  function DigitChar(d: nat): char
    requires d < 10
  {
    "0123456789"[d]
  }

  predicate IsDigit(c: char) {
    '0' <= c <= '9'
  }

  /** `str(n)` for a natural number: its decimal digits, never empty. */
  function NatToString(n: nat): (r: string)
    ensures r != []
    ensures forall i :: 0 <= i < |r| ==> IsDigit(r[i])
  {
    if n < 10 then [DigitChar(n)] else NatToString(n / 10) + [DigitChar(n % 10)]
  }

  /** The number a string of decimal digits spells, read left to right. */
  function DecimalValue(s: string): (r: nat)
    requires forall i :: 0 <= i < |s| ==> IsDigit(s[i])
  {
    if s == [] then 0
    else
      assert IsDigit(s[|s| - 1]);
      DecimalValue(s[..|s| - 1]) * 10 + ((s[|s| - 1] as int) - ('0' as int))
  }

  /** `str(n)` spells `n`: reading its digits back gives `n`. */
  lemma {:induction false} NatToStringValue(n: nat)
    ensures DecimalValue(NatToString(n)) == n
  {
    var r := NatToString(n);
    if n >= 10 {
      assert r[..|r| - 1] == NatToString(n / 10);
      NatToStringValue(n / 10);
    }
  }

  /** `mask_value`: `mask_char * len(value) if value else ""`. */
  function MaskValue(value: string, maskChar: char): (r: string)
    ensures |r| == |value|
    ensures forall i :: 0 <= i < |r| ==> r[i] == maskChar
  {
    if value == [] then "" else [maskChar] + MaskValue(value[1..], maskChar)
  }

  /** A mask reveals the length of the value and nothing else. */
  lemma MaskRevealsOnlyLength(a: string, b: string, maskChar: char)
    ensures MaskValue(a, maskChar) == MaskValue(b, maskChar) <==> |a| == |b|
  {
    var ma, mb := MaskValue(a, maskChar), MaskValue(b, maskChar);
    if |a| == |b| {
      assert forall i :: 0 <= i < |ma| ==> ma[i] == mb[i];
    }
  }
}
