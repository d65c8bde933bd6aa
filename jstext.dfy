/**
 * The JavaScript string built-ins the client relies on, with the semantics of
 * the ECMAScript standard: `String.prototype.trim`, `parseInt` without a
 * radix, and the leftmost match of the regular expression `/[0-9]+/`.
 */
module JsText {
  import opened Wrappers

  /** WhiteSpace or LineTerminator (sections 7.2 and 7.3 of ECMA-262, 5.1 edition). */
  predicate IsJsSpace(c: char) {
    c == '\t' || c == '\n' || c == '\U{B}' || c == '\U{C}' || c == '\r' || c == ' '
    || c == '\U{A0}' || c == '\U{1680}' || ('\U{2000}' <= c <= '\U{200A}')
    || c == '\U{2028}' || c == '\U{2029}' || c == '\U{202F}' || c == '\U{205F}'
    || c == '\U{3000}' || c == '\U{FEFF}'
  }

  predicate IsDigit(c: char) {
    '0' <= c <= '9'
  }

  /** The end of the run of white space in `s` that starts at index `i`. */
  function SpacesFrom(s: string, i: nat): (j: nat)
    requires i <= |s|
    ensures i <= j <= |s|
    ensures forall k :: i <= k < j ==> IsJsSpace(s[k])
    ensures j < |s| ==> !IsJsSpace(s[j])
    decreases |s| - i
  {
    if i < |s| && IsJsSpace(s[i]) then SpacesFrom(s, i + 1) else i
  }

  /** The start of the run of white space in `s` that ends just before index `j`. */
  function SpacesBefore(s: string, j: nat): (i: nat)
    requires j <= |s|
    ensures i <= j
    ensures forall k :: i <= k < j ==> IsJsSpace(s[k])
    ensures 0 < i ==> !IsJsSpace(s[i - 1])
  {
    if 0 < j && IsJsSpace(s[j - 1]) then SpacesBefore(s, j - 1) else j
  }

  /** The number of white-space characters `s` starts with. */
  function LeadingSpaces(s: string): (n: nat)
    ensures n <= |s|
    ensures forall i :: 0 <= i < n ==> IsJsSpace(s[i])
    ensures n < |s| ==> !IsJsSpace(s[n])
  {
    SpacesFrom(s, 0)
  }

  /** The number of white-space characters `s` ends with. */
  function TrailingSpaces(s: string): (n: nat)
    ensures n <= |s|
    ensures forall i :: |s| - n <= i < |s| ==> IsJsSpace(s[i])
    ensures n < |s| ==> !IsJsSpace(s[|s| - 1 - n])
  {
    |s| - SpacesBefore(s, |s|)
  }

  /** The leading white space is the only run of white space before a non-space or the end. */
  lemma LeadingSpacesUnique(s: string, n: nat)
    requires n <= |s| && (forall i :: 0 <= i < n ==> IsJsSpace(s[i]))
    requires n < |s| ==> !IsJsSpace(s[n])
    ensures n == LeadingSpaces(s)
  {
  }

  /** `s` with its leading white space removed (the first step of `parseInt`). */
  function TrimStart(s: string): string
  {
    s[LeadingSpaces(s)..]
  }

  /**
   * `String.prototype.trim`: `s` without white space at either end; nothing
   * at all when `s` is all white space.
   */
  function Trim(s: string): string
  {
    var a, n := LeadingSpaces(s), TrailingSpaces(s);
    if a == |s| then [] else s[a..|s| - n]
  }

  /**
   * What trimming keeps: the piece of `s` between its leading and its
   * trailing white space, which neither starts nor ends with white space.
   */
  lemma TrimKeepsCore(s: string)
    ensures var r, a := Trim(s), LeadingSpaces(s);
      && a + |r| <= |s| && s[a..a + |r|] == r
      && (forall i :: 0 <= i < a ==> IsJsSpace(s[i]))
      && (forall i :: a + |r| <= i < |s| ==> IsJsSpace(s[i]))
      && (r == [] || (!IsJsSpace(r[0]) && !IsJsSpace(r[|r| - 1])))
  {
    TrimBounds(s);
    TrimEdges(s);
  }

  /** A text that is not all white space ends in white space only after its first non-space. */
  lemma TrimBounds(s: string)
    ensures LeadingSpaces(s) < |s| ==> LeadingSpaces(s) < |s| - TrailingSpaces(s)
  {
    var a, n := LeadingSpaces(s), TrailingSpaces(s);
    if a < |s| {
      assert !IsJsSpace(s[a]);
    }
  }

  /** The trimmed text starts and ends with a non-space. */
  lemma TrimEdges(s: string)
    requires LeadingSpaces(s) < |s| ==> LeadingSpaces(s) < |s| - TrailingSpaces(s)
    ensures var r := Trim(s); r == [] || (!IsJsSpace(r[0]) && !IsJsSpace(r[|r| - 1]))
  {
    var a, n := LeadingSpaces(s), TrailingSpaces(s);
    if a < |s| {
      var r := Trim(s);
      assert r == s[a..|s| - n];
      SliceEdges(s, a, |s| - n);
      assert r[0] == s[a] && r[|r| - 1] == s[|s| - 1 - n];
    }
  }

  /** The first and last characters of a non-empty slice. */
  lemma SliceEdges(s: string, lo: nat, hi: nat)
    requires lo < hi <= |s|
    ensures s[lo..hi][0] == s[lo] && s[lo..hi][hi - lo - 1] == s[hi - 1]
  {
  }

  /** Trimming leaves nothing exactly when `s` is all white space. */
  lemma TrimEmptyIffBlank(s: string)
    ensures Trim(s) == [] <==> forall i :: 0 <= i < |s| ==> IsJsSpace(s[i])
  {
    TrimKeepsCore(s);
  }

  /** Trimming twice is trimming once. */
  lemma TrimIdempotent(s: string)
    ensures Trim(Trim(s)) == Trim(s)
  {
    var r := Trim(s);
    TrimKeepsCore(s);
    if r != [] {
      assert LeadingSpaces(r) == 0;
      assert TrailingSpaces(r) == 0;
      assert r[0..] == r;
      assert r[..|r|] == r;
    }
  }

  /** The value of a digit character in the given radix, if it is one. */
  function DigitValue(c: char, radix: nat): (v: Option<nat>)
    ensures v.Some? ==> v.value < radix
  {
    var d :=
      if '0' <= c <= '9' then c as int - '0' as int
      else if 'a' <= c <= 'z' then c as int - 'a' as int + 10
      else if 'A' <= c <= 'Z' then c as int - 'A' as int + 10
      else radix;
    if d < radix then Some(d) else None
  }

  /**
   * `parseInt(s)` with no radix argument (section 15.1.2.2 of ECMA-262):
   * skip leading white space, read an optional sign, switch to radix 16
   * after a `0x` or `0X` prefix, and read the longest run of digits.
   * None stands for NaN, the result when that run is empty.
   */
  function ParseInt(s: string): (r: Option<int>)
  {
    if s != [] && IsJsSpace(s[0]) then ParseInt(s[1..]) else ParseSigned(s)
  }

  /** `parseInt` once the white space is skipped: sign, radix prefix, digits. */
  function ParseSigned(t: string): (r: Option<int>)
  {
    var negative := t != [] && t[0] == '-';
    var u := if t != [] && (t[0] == '-' || t[0] == '+') then t[1..] else t;
    var hex := |u| >= 2 && u[0] == '0' && (u[1] == 'x' || u[1] == 'X');
    var magnitude := if hex then ParseDigits(u[2..], 16, None) else ParseDigits(u, 10, None);
    match magnitude
    case None => None
    case Some(m) => Some(if negative then -(m as int) else m as int)
  }

  /** Skipping white space one character at a time is parsing the `trimStart`-ed text. */
  lemma {:induction false} ParseIntSkipsSpaces(s: string)
    ensures ParseInt(s) == ParseSigned(TrimStart(s))
    decreases |s|
  {
    if s != [] && IsJsSpace(s[0]) {
      ParseIntSkipsSpaces(s[1..]);
      var t := s[1..];
      var n := LeadingSpaces(t);
      forall i | 0 <= i < n + 1
        ensures IsJsSpace(s[i])
      {
        if 0 < i { assert s[i] == t[i - 1]; }
      }
      if n + 1 < |s| { assert s[n + 1] == t[n]; }
      LeadingSpacesUnique(s, n + 1);
      assert t[n..] == s[n + 1..];
    } else {
      LeadingSpacesUnique(s, 0);
      assert s[0..] == s;
    }
  }

  /**
   * Read radix digits from the front of `v` for as long as there are any,
   * `acc` holding the value of those read so far (None before the first).
   */
  function ParseDigits(v: string, radix: nat, acc: Option<nat>): (r: Option<nat>)
  {
    if v != [] && DigitValue(v[0], radix).Some? then
      var d := DigitValue(v[0], radix).value;
      ParseDigits(v[1..], radix, Some(if acc.Some? then acc.value * radix + d else d))
    else acc
  }

  /** The decimal digit character for `d`. */
  function DigitChar(d: nat): (c: char)
    requires d < 10
    ensures IsDigit(c) && DigitValue(c, 10) == Some(d)
  {
    (48 + d) as char
  }

  /** `p` written with two decimal digits, zero-padded. */
  function Pad2(p: nat): (s: string)
    requires p < 100
    ensures |s| == 2 && IsDigit(s[0]) && IsDigit(s[1])
  {
    [DigitChar(p / 10), DigitChar(p % 10)]
  }

  /** Two decimal digits parse to the number they spell out. */
  lemma ParseTwoDigits(s: string)
    requires |s| == 2 && IsDigit(s[0]) && IsDigit(s[1])
    ensures ParseInt(s) == Some((s[0] as int - '0' as int) * 10 + (s[1] as int - '0' as int))
  {
    var d0, d1 := s[0] as int - '0' as int, s[1] as int - '0' as int;
    assert !IsJsSpace(s[0]);
    assert DigitValue(s[0], 10) == Some(d0);
    assert DigitValue(s[1], 10) == Some(d1);
    assert s[1..][1..] == [];
    assert ParseDigits(s[1..], 10, Some(d0)) == Some(d0 * 10 + d1);
  }

  /** `parseInt` reads back the zero-padded two-digit form of 0..99. */
  lemma ParsePad2(p: nat)
    requires p < 100
    ensures ParseInt(Pad2(p)) == Some(p)
  {
    var s := Pad2(p);
    assert s[0] as int - '0' as int == p / 10;
    assert s[1] as int - '0' as int == p % 10;
    ParseTwoDigits(s);
  }

  /** The first index from `i` on that holds a decimal digit, or `|s|` when none does. */
  function FirstDigit(s: string, i: nat): (k: nat)
    requires i <= |s|
    ensures i <= k <= |s|
    ensures forall m :: i <= m < k ==> !IsDigit(s[m])
    ensures k < |s| ==> IsDigit(s[k])
    decreases |s| - i
  {
    if i < |s| && !IsDigit(s[i]) then FirstDigit(s, i + 1) else i
  }

  /** The end of the run of decimal digits in `s` that starts at index `i`. */
  function DigitsFrom(s: string, i: nat): (j: nat)
    requires i <= |s|
    ensures i <= j <= |s|
    ensures forall m :: i <= m < j ==> IsDigit(s[m])
    ensures j < |s| ==> !IsDigit(s[j])
    decreases |s| - i
  {
    if i < |s| && IsDigit(s[i]) then DigitsFrom(s, i + 1) else i
  }

  /**
   * The start and length of the leftmost maximal run of decimal digits in
   * `s`, the match of `/[0-9]+/`; the length is 0 exactly when `s` has no
   * digit at all (the regex then matches nothing).
   */
  function DigitRun(s: string): (r: (nat, nat))
    ensures r.0 + r.1 <= |s|
    ensures forall i :: 0 <= i < r.0 ==> !IsDigit(s[i])
    ensures forall i :: r.0 <= i < r.0 + r.1 ==> IsDigit(s[i])
    ensures r.0 + r.1 < |s| ==> !IsDigit(s[r.0 + r.1])
    ensures r.1 == 0 <==> r.0 == |s|
  {
    var k := FirstDigit(s, 0);
    (k, DigitsFrom(s, k) - k)
  }
}
