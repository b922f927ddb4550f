/**
 * The few pieces of Python `str` and `int` semantics the payment core leans on:
 * `strip`, `split`, `join`, `replace(old, new, 1)`, `int(text)`, `str(int)`
 * and ASCII case mapping. Strings are sequences of Unicode scalar values, as
 * Python 3 strings are.
 */
module PyText {
  import opened Wrappers

  /** Python's `str.isspace()` for a single code point. */
  predicate IsSpace(c: char) {
    var n := c as int;
    || n == 0x20 || 0x09 <= n <= 0x0D || 0x1C <= n <= 0x1F || n == 0x85 || n == 0xA0
    || n == 0x1680 || 0x2000 <= n <= 0x200A || n == 0x2028 || n == 0x2029
    || n == 0x202F || n == 0x205F || n == 0x3000
  }

  /** Number of whitespace characters at the front of `s`. */
  function LeadingSpaces(s: string): (n: nat)
    ensures n <= |s|
    ensures forall k :: 0 <= k < n ==> IsSpace(s[k])
    ensures n < |s| ==> !IsSpace(s[n])
  {
    if |s| > 0 && IsSpace(s[0]) then 1 + LeadingSpaces(s[1..]) else 0
  }

  /** Number of whitespace characters at the back of `s`. */
  function TrailingSpaces(s: string): (n: nat)
    ensures n <= |s|
    ensures forall k :: |s| - n <= k < |s| ==> IsSpace(s[k])
    ensures n < |s| ==> !IsSpace(s[|s| - n - 1])
  {
    if |s| > 0 && IsSpace(s[|s| - 1]) then 1 + TrailingSpaces(s[..|s| - 1]) else 0
  }

  /**
   * `s.strip()`: the infix of `s` that starts after its leading whitespace
   * and is followed only by whitespace, and the longest such infix, since
   * neither of its ends is whitespace.
   */
  function Strip(s: string): (r: string)
    ensures |r| <= |s| - LeadingSpaces(s) && r == s[LeadingSpaces(s)..LeadingSpaces(s) + |r|]
    ensures forall k :: LeadingSpaces(s) + |r| <= k < |s| ==> IsSpace(s[k])
    ensures r != [] ==> !IsSpace(r[0]) && !IsSpace(r[|r| - 1])
    ensures (forall k :: 0 <= k < |s| ==> !IsSpace(s[k])) ==> r == s
    ensures forall k :: 0 <= k < |r| ==> r[k] in s
  {
    var i := LeadingSpaces(s);
    var rest := s[i..];
    var r := rest[..|rest| - TrailingSpaces(rest)];
    assert forall k :: i + |r| <= k < |s| ==> IsSpace(s[k]) by {
      forall k | i + |r| <= k < |s| ensures IsSpace(s[k]) {
        assert s[k] == rest[k - i];
      }
    }
    r
  }

  /** `sep.join(parts)`. */
  function Join(sep: string, parts: seq<string>): string {
    if |parts| == 0 then ""
    else if |parts| == 1 then parts[0]
    else parts[0] + sep + Join(sep, parts[1..])
  }

  /** Joining a list with a head: the head, the separator, then the rest joined. */
  lemma JoinCons(sep: string, head: string, rest: seq<string>)
    requires |rest| >= 1
    ensures Join(sep, [head] + rest) == head + sep + Join(sep, rest)
  {
    assert ([head] + rest)[1..] == rest;
  }

  /** Index of the first occurrence of `c` in `s`. */
  function IndexOf(s: string, c: char): (i: nat)
    requires c in s
    ensures i < |s| && s[i] == c && c !in s[..i]
  {
    if s[0] == c then 0 else 1 + IndexOf(s[1..], c)
  }

  /** `s.split(sep)` for a one-character separator: every occurrence splits. */
  function Split(s: string, sep: char): (parts: seq<string>)
    ensures |parts| >= 1
    ensures Join([sep], parts) == s
    ensures forall i :: 0 <= i < |parts| ==> sep !in parts[i]
    decreases |s|
  {
    if sep !in s then [s]
    else
      var i := IndexOf(s, sep);
      assert s == s[..i] + [sep] + s[i + 1..];
      [s[..i]] + Split(s[i + 1..], sep)
  }

  /** `s.split(sep, 1)`: at most one split, at the first occurrence. */
  function SplitOnce(s: string, sep: char): (parts: seq<string>)
    ensures |parts| == 1 <==> sep !in s
    ensures |parts| == 1 ==> parts[0] == s
    ensures |parts| != 1 ==> |parts| == 2 && parts[0] + [sep] + parts[1] == s && sep !in parts[0]
  {
    if sep !in s then [s]
    else
      var i := IndexOf(s, sep);
      assert s == s[..i] + [sep] + s[i + 1..];
      [s[..i], s[i + 1..]]
  }

  /** `split(sep, 1)` cuts at the separator that follows a separator-free head. */
  lemma SplitOnceAt(head: string, sep: char, tail: string)
    requires sep !in head
    ensures SplitOnce(head + [sep] + tail, sep) == [head, tail]
  {
    var s := head + [sep] + tail;
    assert s[|head|] == sep;
    var i := IndexOf(s, sep);
    assert s[..|head|] == head;
    assert i == |head|;
    assert s[..i] == head && s[i + 1..] == tail;
  }

  /** Splitting a joined list of separator-free parts gives the parts back. */
  lemma {:induction false} SplitJoin(parts: seq<string>, sep: char)
    requires |parts| >= 1
    requires forall i :: 0 <= i < |parts| ==> sep !in parts[i]
    ensures Split(Join([sep], parts), sep) == parts
    decreases |parts|
  {
    if |parts| == 1 {
    } else {
      var s := Join([sep], parts);
      var tail := Join([sep], parts[1..]);
      assert s == parts[0] + [sep] + tail;
      assert sep in s by { assert s[|parts[0]|] == sep; }
      var i := IndexOf(s, sep);
      assert s[..|parts[0]|] == parts[0];
      assert i == |parts[0]|;
      assert s[..i] == parts[0];
      assert s[i + 1..] == tail;
      SplitJoin(parts[1..], sep);
    }
  }

  /** Whether `pat` occurs in `s` starting at index `i`. */
  predicate OccursAt(s: string, pat: string, i: nat) {
    i + |pat| <= |s| && s[i..i + |pat|] == pat
  }

  /** `s.find(pat)` as an option: the first index at which `pat` occurs. */
  function Find(s: string, pat: string): (r: Option<nat>)
    ensures r.Some? ==> OccursAt(s, pat, r.value)
    ensures r.Some? ==> forall j :: 0 <= j < r.value ==> !OccursAt(s, pat, j)
    ensures r.None? ==> forall j :: 0 <= j <= |s| ==> !OccursAt(s, pat, j)
  {
    OccursAtFront(s, pat);
    if pat <= s then Some(0)
    else if |s| == 0 then None
    else
      match Find(s[1..], pat)
      case None =>
        OccursShiftAll(s, pat, |s| + 1);
        None
      case Some(i) =>
        OccursShiftAll(s, pat, i + 1);
        OccursShift(s, pat, i + 1);
        Some(i + 1)
  }

  lemma OccursAtFront(s: string, pat: string)
    ensures OccursAt(s, pat, 0) <==> pat <= s
  {
    if |pat| <= |s| {
      assert s[0..|pat|] == s[..|pat|];
    }
  }

  /** Past the first character, an occurrence in `s` is an occurrence in `s[1..]` one place earlier. */
  lemma OccursShift(s: string, pat: string, j: nat)
    requires |s| > 0 && 1 <= j
    ensures OccursAt(s, pat, j) <==> OccursAt(s[1..], pat, j - 1)
  {
    if j + |pat| <= |s| {
      assert s[1..][j - 1..j - 1 + |pat|] == s[j..j + |pat|];
    }
  }

  lemma OccursShiftAll(s: string, pat: string, n: nat)
    requires |s| > 0
    requires forall j :: 0 <= j < n - 1 ==> !OccursAt(s[1..], pat, j)
    ensures forall j :: 1 <= j < n ==> !OccursAt(s, pat, j)
  {
    forall j | 1 <= j < n ensures !OccursAt(s, pat, j) {
      OccursShift(s, pat, j);
    }
  }

  /** `s.replace(pat, rep, 1)`: replace the first occurrence of `pat`, if any. */
  function ReplaceFirst(s: string, pat: string, rep: string): string {
    match Find(s, pat)
    case None => s
    case Some(i) => s[..i] + rep + s[i + |pat|..]
  }

  /** The replacement only touches a matching prefix when the text starts with the pattern. */
  lemma ReplaceFirstAtFront(pat: string, rest: string, rep: string)
    ensures ReplaceFirst(pat + rest, pat, rep) == rep + rest
  {
    assert OccursAt(pat + rest, pat, 0) by { assert (pat + rest)[0..|pat|] == pat; }
    assert Find(pat + rest, pat) == Some(0);
    assert (pat + rest)[|pat|..] == rest;
  }

  predicate IsDigit(c: char) {
    '0' <= c <= '9'
  }

  predicate AllDigits(s: string) {
    |s| > 0 && forall k :: 0 <= k < |s| ==> IsDigit(s[k])
  }

  function DigitChar(d: nat): (c: char)
    requires d < 10
    ensures IsDigit(c) && c as int - '0' as int == d
  {
    ('0' as int + d) as char
  }

  /** The decimal value of a non-empty run of ASCII digits. */
  function DigitsValue(s: string): nat
    requires AllDigits(s)
  {
    var last := s[|s| - 1] as int - '0' as int;
    if |s| == 1 then last else 10 * DigitsValue(s[..|s| - 1]) + last
  }

  /** `str(n)` for a non-negative integer. */
  function NatToString(n: nat): (r: string)
    ensures AllDigits(r)
    ensures r[0] == '0' <==> n == 0
    ensures n == 0 ==> r == "0"
  {
    if n < 10 then [DigitChar(n)] else NatToString(n / 10) + [DigitChar(n % 10)]
  }

  /**
   * The way `str` writes an integer: an optional minus sign, never a plus
   * sign, and no leading zero except in `"0"` itself (so no `"-0"` either).
   */
  predicate Plain(t: string) {
    if |t| > 0 && t[0] == '-' then |t| > 1 && t[1] != '0'
    else |t| > 0 && t[0] != '+' && (t[0] == '0' ==> t == "0")
  }

  /** `str(n)` for any integer. */
  function IntToString(n: int): (r: string)
    ensures r != [] && (n >= 0 <==> r[0] != '-')
    ensures n >= 0 ==> AllDigits(r)
    ensures n < 0 ==> AllDigits(r[1..])
    ensures Plain(r)
  {
    if n < 0 then
      var d := NatToString(-n);
      assert ("-" + d)[1..] == d;
      "-" + d
    else NatToString(n)
  }

  /** `t` spells `n` in the form `int` reads: ASCII digits, optionally after one sign. */
  predicate Spells(t: string, n: int) {
    || (AllDigits(t) && DigitsValue(t) == n)
    || (|t| > 0 && t[0] == '+' && AllDigits(t[1..]) && DigitsValue(t[1..]) == n)
    || (|t| > 0 && t[0] == '-' && AllDigits(t[1..]) && DigitsValue(t[1..]) == -n)
  }

  /**
   * `int(s)` on text: surrounding whitespace is ignored, one optional sign,
   * then one or more ASCII digits. `None` stands for the `ValueError`.
   * Python also reads underscores between digits and non-ASCII decimal
   * digits; this model does not.
   */
  function ParseInt(s: string): (r: Option<int>)
    ensures r.Some? ==> |Strip(s)| > 0 && Spells(Strip(s), r.value)
    ensures (exists n :: Spells(Strip(s), n)) ==> r.Some?
  {
    var t := Strip(s);
    if |t| > 0 && (t[0] == '-' || t[0] == '+') then
      if AllDigits(t[1..]) then
        var v: int := DigitsValue(t[1..]);
        Some(if t[0] == '-' then -v else v)
      else None
    else if AllDigits(t) then Some(DigitsValue(t))
    else None
  }

  /** Text spells at most one number. */
  lemma SpellsUnique(t: string, m: int, n: int)
    requires Spells(t, m) && Spells(t, n)
    ensures m == n
  {
  }

  lemma {:induction false} DigitsRoundTrip(n: nat)
    ensures DigitsValue(NatToString(n)) == n
  {
    if n >= 10 {
      var s := NatToString(n);
      assert s[..|s| - 1] == NatToString(n / 10);
      DigitsRoundTrip(n / 10);
    }
  }

  /** Digits without a leading zero that are worth `n` are `str(n)`. */
  lemma {:induction false} PlainDigitsUnique(t: string, n: nat)
    requires AllDigits(t) && (t[0] == '0' ==> t == "0") && DigitsValue(t) == n
    ensures t == NatToString(n)
  {
    if |t| > 1 {
      var p := t[..|t| - 1];
      assert AllDigits(p);
      assert p[0] == t[0];
      ZeroValueLeadsWithZero(p);
      var q := DigitsValue(p);
      assert n / 10 == q && n % 10 == t[|t| - 1] as int - '0' as int;
      PlainDigitsUnique(p, q);
      assert t == p + [t[|t| - 1]];
    }
  }

  /** A run of digits worth nothing starts with `0`. */
  lemma {:induction false} ZeroValueLeadsWithZero(t: string)
    requires AllDigits(t)
    ensures DigitsValue(t) == 0 ==> t[0] == '0'
  {
    if |t| > 1 {
      var p := t[..|t| - 1];
      assert AllDigits(p);
      ZeroValueLeadsWithZero(p);
    }
  }

  /** `str(n)` is the only plain spelling of `n`: a text `int` reads as `n` and written as `str` writes is `str(n)`. */
  lemma PlainSpellingUnique(t: string, n: int)
    requires Plain(t) && Spells(t, n)
    ensures t == IntToString(n)
  {
    if t[0] == '-' {
      var d := t[1..];
      PlainDigitsUnique(d, -n);
      assert t == "-" + d;
    } else {
      PlainDigitsUnique(t, n);
    }
  }

  /** `int(str(n)) == n`. */
  lemma ParseIntRoundTrip(n: int)
    ensures ParseInt(IntToString(n)) == Some(n)
  {
    var s := IntToString(n);
    var m: nat := if n < 0 then -n else n;
    assert forall k :: 0 <= k < |s| ==> !IsSpace(s[k]);
    assert Strip(s) == s;
    DigitsRoundTrip(m);
    if n < 0 {
      assert s[1..] == NatToString(m);
    }
    assert Spells(s, n);
    SpellsUnique(s, ParseInt(s).value, n);
  }

  /** A run of decimal digits never contains the characters `-`, `.`, `&` or `=`. */
  lemma DigitsAreSafe(s: string)
    requires AllDigits(s)
    ensures '-' !in s && '.' !in s && '&' !in s && '=' !in s
  {
  }

  function UpperAscii(c: char): char {
    if 'a' <= c <= 'z' then (c as int - 32) as char else c
  }

  function LowerAscii(c: char): char {
    if 'A' <= c <= 'Z' then (c as int + 32) as char else c
  }

  /** `s.upper()`, with letters outside ASCII left as they are. */
  function Upper(s: string): (r: string)
    ensures |r| == |s| && forall k :: 0 <= k < |s| ==> r[k] == UpperAscii(s[k])
  {
    seq(|s|, k requires 0 <= k < |s| => UpperAscii(s[k]))
  }

  /** `s.lower()`, with letters outside ASCII left as they are. */
  function Lower(s: string): (r: string)
    ensures |r| == |s| && forall k :: 0 <= k < |s| ==> r[k] == LowerAscii(s[k])
  {
    seq(|s|, k requires 0 <= k < |s| => LowerAscii(s[k]))
  }
}
