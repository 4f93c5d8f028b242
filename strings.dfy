/** String and sequence operations of JavaScript that both the chat handler and the
    digest worker use: `trim`, `toLowerCase`, `slice(0, n)`, `slice(-n)`, `join` and the
    decimal rendering of an integer inside a template literal. A string is a sequence of
    characters; each character stands for one unit of JavaScript's `length`. */
module Strings {

  datatype Option<+T> = None | Some(value: T)

  function Min(a: int, b: int): int { if a <= b then a else b }

  // ---------------------------------------------------------------- trim

  /** The characters `String.prototype.trim` removes: ECMAScript WhiteSpace
      (tab, vertical tab, form feed, space, no-break space, byte order mark and the
      other space separators) and LineTerminator (line feed, carriage return,
      line and paragraph separators). */
  predicate IsSpace(c: char) {
    c == '\t' || c == '\n' || c == '\U{B}' || c == '\U{C}' || c == '\r' || c == ' '
    || c == '\U{A0}' || c == '\U{1680}' || ('\U{2000}' <= c <= '\U{200A}')
    || c == '\U{2028}' || c == '\U{2029}' || c == '\U{202F}' || c == '\U{205F}'
    || c == '\U{3000}' || c == '\U{FEFF}'
  }

  predicate AllSpace(s: string) {
    forall i :: 0 <= i < |s| ==> IsSpace(s[i])
  }

  /** `s.trimStart()`. */
  function TrimStart(s: string): string {
    if s != [] && IsSpace(s[0]) then TrimStart(s[1..]) else s
  }

  /** `s.trimEnd()`. */
  function TrimEnd(s: string): string {
    if s != [] && IsSpace(s[|s| - 1]) then TrimEnd(s[..|s| - 1]) else s
  }

  /** `s.trim()`. */
  function Trim(s: string): string {
    TrimEnd(TrimStart(s))
  }

  /** Trimming the start leaves a suffix of `s` that does not start with white
      space, and everything dropped is white space. */
  lemma {:induction false} TrimStartSpec(s: string)
    ensures var r := TrimStart(s);
            |r| <= |s| && r == s[|s| - |r|..]
            && AllSpace(s[..|s| - |r|])
            && (r == [] || !IsSpace(r[0]))
  {
    if s != [] && IsSpace(s[0]) {
      TrimStartSpec(s[1..]);
      var r := TrimStart(s);
      var k := |s| - |r|;
      assert s[1..][..k - 1] == s[1..k];
      assert s[1..][|s| - 1 - |r|..] == s[k..];
      var head := s[..k];
      forall i | 0 <= i < k ensures IsSpace(head[i]) {
        if i > 0 { assert head[i] == s[1..k][i - 1]; }
      }
    }
  }

  /** Trimming the end leaves a prefix of `s` that does not end with white space,
      and everything dropped is white space. */
  lemma {:induction false} TrimEndSpec(s: string)
    ensures var r := TrimEnd(s);
            |r| <= |s| && r == s[..|r|]
            && AllSpace(s[|r|..])
            && (r == [] || !IsSpace(r[|r| - 1]))
  {
    if s != [] && IsSpace(s[|s| - 1]) {
      var s' := s[..|s| - 1];
      TrimEndSpec(s');
      var r := TrimEnd(s);
      assert s'[..|r|] == s[..|r|];
      var tail := s[|r|..];
      forall i | 0 <= i < |tail| ensures IsSpace(tail[i]) {
        if |r| + i < |s| - 1 { assert tail[i] == s'[|r|..][i]; }
      }
    }
  }

  /** The trimmed text is the part of `s` between a white-space head and a
      white-space tail, and neither starts nor ends with white space. */
  lemma TrimSpec(s: string)
    ensures |TrimStart(s)| <= |s|
    ensures var k := |s| - |TrimStart(s)|;
            var r := Trim(s);
            k + |r| <= |s| && r == s[k..k + |r|]
            && AllSpace(s[..k]) && AllSpace(s[k + |r|..])
            && (r == [] || (!IsSpace(r[0]) && !IsSpace(r[|r| - 1])))
  {
    var t := TrimStart(s);
    var k := |s| - |t|;
    var r := TrimEnd(t);
    TrimStartSpec(s);
    TrimEndSpec(t);
    assert r != [] ==> r[0] == t[0];
    SliceOfSuffix(s, k, |r|);
  }

  /** The start and the rest of a suffix are slices of the whole. */
  lemma SliceOfSuffix<T>(s: seq<T>, k: nat, m: nat)
    requires k + m <= |s|
    ensures s[k..][..m] == s[k..k + m] && s[k..][m..] == s[k + m..]
  {
  }

  /** A string trims to nothing exactly when it consists of white space only. */
  lemma TrimEmptyIff(s: string)
    ensures Trim(s) == [] <==> AllSpace(s)
  {
    TrimSpec(s);
    var k := |s| - |TrimStart(s)|;
    var r := Trim(s);
    assert k + |r| <= |s| && AllSpace(s[..k]) && AllSpace(s[k + |r|..]);
    if r == [] {
      forall i | 0 <= i < |s| ensures IsSpace(s[i]) {
        if i < k { assert s[i] == s[..k][i]; } else { assert s[i] == s[k..][i - k]; }
      }
    } else {
      assert s[k] == r[0];
    }
  }

  lemma TrimStartNoop(s: string)
    requires s == [] || !IsSpace(s[0])
    ensures TrimStart(s) == s
  {
  }

  lemma TrimEndNoop(s: string)
    requires s == [] || !IsSpace(s[|s| - 1])
    ensures TrimEnd(s) == s
  {
  }

  /** Trimming twice is trimming once. */
  lemma TrimIdempotent(s: string)
    ensures Trim(Trim(s)) == Trim(s)
  {
    TrimSpec(s);
    var r := Trim(s);
    TrimStartNoop(r);
    TrimEndNoop(r);
  }

  /** White space around a text that neither starts nor ends with white space is
      exactly what trim removes. */
  lemma {:induction false} TrimPadded(a: string, x: string, b: string)
    requires AllSpace(a) && AllSpace(b)
    requires x != [] && !IsSpace(x[0]) && !IsSpace(x[|x| - 1])
    ensures Trim(a + x + b) == x
  {
    var s := a + x + b;
    var t := TrimStart(s);
    TrimStartSpec(s);
    var k := |s| - |t|;
    assert s[|a|] == x[0];
    assert forall i :: 0 <= i < |a| ==> s[i] == a[i];
    assert k == |a|;
    assert t == x + b;
    var r := TrimEnd(t);
    TrimEndSpec(t);
    assert t[|x| - 1] == x[|x| - 1];
    assert forall i :: |x| <= i < |t| ==> t[i] == b[i - |x|];
    assert |r| == |x|;
  }

  // ---------------------------------------------------------------- toLowerCase

  /** The lower-case mapping of `toLowerCase` on the ASCII letters; other characters
      are kept as they are. */
  function LowerChar(c: char): char {
    if 'A' <= c <= 'Z' then (c as int - 'A' as int + 'a' as int) as char else c
  }

  /** `s.toLowerCase()`, character by character. */
  function ToLower(s: string): (r: string)
    ensures |r| == |s|
  {
    if s == [] then [] else [LowerChar(s[0])] + ToLower(s[1..])
  }

  /** Lower-casing maps every character on its own. */
  lemma {:induction false} ToLowerAt(s: string)
    ensures forall i :: 0 <= i < |s| ==> ToLower(s)[i] == LowerChar(s[i])
  {
    if s != [] {
      ToLowerAt(s[1..]);
      forall i | 1 <= i < |s| ensures ToLower(s)[i] == LowerChar(s[i]) {
        assert ToLower(s)[i] == ToLower(s[1..])[i - 1];
      }
    }
  }

  /** A character lower-cases to a lower-case letter exactly when it is that letter
      or its upper-case form. */
  lemma LowerCharMatches(c: char, d: char)
    requires 'a' <= d <= 'z'
    ensures LowerChar(c) == d <==> c == d || c as int == d as int - 32
  {
  }

  /** A string lower-cases to a given lower-case word exactly when, letter by letter,
      it spells that word in either case. */
  lemma ToLowerMatchesIff(s: string, w: string)
    requires forall j :: 0 <= j < |w| ==> 'a' <= w[j] <= 'z'
    ensures ToLower(s) == w <==>
              |s| == |w| && forall j :: 0 <= j < |s| ==> s[j] == w[j] || s[j] as int == w[j] as int - 32
  {
    ToLowerAt(s);
    if |s| == |w| {
      forall j | 0 <= j < |s| {
        LowerCharMatches(s[j], w[j]);
      }
    }
  }

  // ---------------------------------------------------------------- slice

  /** `s.slice(0, n)`: the longest prefix of `s` that has at most `n` elements. */
  function Prefix<T>(s: seq<T>, n: nat): (r: seq<T>)
    ensures |r| == Min(|s|, n) && r == s[..|r|]
  {
    if |s| <= n then s else s[..n]
  }

  /** `s.slice(-n)` for a positive `n`: the longest suffix of `s` that has at most
      `n` elements. */
  function TakeLast<T>(s: seq<T>, n: nat): (r: seq<T>)
    requires n > 0
    ensures |r| == Min(|s|, n) && r == s[|s| - |r|..]
  {
    if |s| <= n then s else s[|s| - n..]
  }

  /** Keeping the last `n` elements of `s + t` keeps all of `t` when `t` fits, and
      fills the rest with the newest elements of `s`. */
  lemma TakeLastAppend<T>(s: seq<T>, t: seq<T>, n: nat)
    requires 0 < n && |t| <= n
    ensures TakeLast(s + t, n) == s[|s| - Min(|s|, n - |t|)..] + t
  {
    var r := TakeLast(s + t, n);
    var k := |s| - Min(|s|, n - |t|);
    assert |r| == |s| + |t| - k;
    assert r == (s + t)[k..];
    assert (s + t)[k..] == s[k..] + t;
  }

  // ---------------------------------------------------------------- join

  /** `parts.join(sep)`. */
  function Join(parts: seq<string>, sep: string): string {
    if |parts| == 0 then ""
    else if |parts| == 1 then parts[0]
    else parts[0] + sep + Join(parts[1..], sep)
  }

  /** Joining one more part appends the separator and that part: `join` builds its
      result from the left, one part at a time. */
  lemma {:induction false} JoinSnoc(parts: seq<string>, p: string, sep: string)
    requires parts != []
    ensures Join(parts + [p], sep) == Join(parts, sep) + sep + p
  {
    var all := parts + [p];
    if |parts| == 1 {
      assert all[1..] == [p];
    } else {
      assert all[1..] == parts[1..] + [p];
      JoinSnoc(parts[1..], p, sep);
    }
  }

  /** With a white-space separator, the joined text is white space only exactly when
      every part is. */
  lemma {:induction false} JoinAllSpaceIff(parts: seq<string>, sep: string)
    requires AllSpace(sep)
    ensures AllSpace(Join(parts, sep)) <==> forall j :: 0 <= j < |parts| ==> AllSpace(parts[j])
  {
    if |parts| > 1 {
      var rest := Join(parts[1..], sep);
      JoinAllSpaceIff(parts[1..], sep);
      var whole := parts[0] + sep + rest;
      if AllSpace(whole) {
        forall i | 0 <= i < |parts[0]| ensures IsSpace(parts[0][i]) { assert whole[i] == parts[0][i]; }
        forall i | 0 <= i < |rest| ensures IsSpace(rest[i]) { assert whole[|parts[0]| + |sep| + i] == rest[i]; }
        forall j | 0 <= j < |parts| ensures AllSpace(parts[j]) {
          if j > 0 { assert parts[j] == parts[1..][j - 1]; }
        }
      }
      if forall j :: 0 <= j < |parts| ==> AllSpace(parts[j]) {
        forall j | 0 <= j < |parts[1..]| ensures AllSpace(parts[1..][j]) { assert parts[1..][j] == parts[j + 1]; }
        assert AllSpace(parts[0]);
      }
    }
  }

  // ---------------------------------------------------------------- numbers

  function DigitChar(d: nat): char
    requires d < 10
  {
    ('0' as int + d) as char
  }

  predicate IsDigit(c: char) { '0' <= c <= '9' }

  /** A number interpolated into a template literal: its decimal digits, most
      significant first, without leading zeros. */
  function Decimal(n: nat): (r: string)
    ensures |r| >= 1
    ensures forall i :: 0 <= i < |r| ==> IsDigit(r[i])
    ensures n > 0 ==> r[0] != '0'
  {
    if n < 10 then [DigitChar(n)] else Decimal(n / 10) + [DigitChar(n % 10)]
  }

  function DigitValue(c: char): nat
    requires IsDigit(c)
  {
    c as int - '0' as int
  }

  /** The value a string of decimal digits denotes. */
  function DigitsValue(s: string): nat
    requires forall i :: 0 <= i < |s| ==> IsDigit(s[i])
  {
    if s == [] then 0 else 10 * DigitsValue(s[..|s| - 1]) + DigitValue(s[|s| - 1])
  }

  /** Reading the digits back gives the number. */
  lemma {:induction false} DecimalRoundTrip(n: nat)
    ensures DigitsValue(Decimal(n)) == n
  {
    var r := Decimal(n);
    if n >= 10 {
      DecimalRoundTrip(n / 10);
      assert r[..|r| - 1] == Decimal(n / 10);
    }
  }
}
