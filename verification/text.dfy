/**
 * String helpers with JavaScript's semantics: `String.prototype.trim`,
 * `Array.prototype.join` and `String.prototype.split` with a separator.
 */
module Text {

  /** ECMAScript WhiteSpace and LineTerminator code points: what `trim` removes. */
  predicate IsWhitespace(c: char) {
    c == '\t' || c == '\n' || c == '\U{000B}' || c == '\U{000C}' || c == '\r' ||
    c == ' ' || c == '\U{00A0}' || c == '\U{1680}' ||
    ('\U{2000}' <= c <= '\U{200A}') ||
    c == '\U{2028}' || c == '\U{2029}' || c == '\U{202F}' || c == '\U{205F}' ||
    c == '\U{3000}' || c == '\U{FEFF}'
  }

  /** A string that `trim` turns into "", i.e. a falsy `s.trim()`. */
  predicate IsBlank(s: string) {
    forall i :: 0 <= i < |s| ==> IsWhitespace(s[i])
  }

  /** How many whitespace characters `s` starts with. */
  function LeadingBlanks(s: string): (k: nat)
    ensures k <= |s| && IsBlank(s[..k])
    ensures k < |s| ==> !IsWhitespace(s[k])
  {
    if s != [] && IsWhitespace(s[0]) then
      var k := 1 + LeadingBlanks(s[1..]);
      assert forall i :: 1 <= i < k ==> s[..k][i] == s[1..][..k - 1][i - 1];
      k
    else 0
  }

  /** Where the trailing whitespace of `s` begins. */
  function TrailingStart(s: string): (k: nat)
    ensures k <= |s| && IsBlank(s[k..])
    ensures k > 0 ==> !IsWhitespace(s[k - 1])
  {
    if s != [] && IsWhitespace(s[|s| - 1]) then
      var k := TrailingStart(s[..|s| - 1]);
      assert forall i :: 0 <= i < |s| - 1 - k ==> s[k..][i] == s[..|s| - 1][k..][i];
      k
    else |s|
  }

  /** Neither end is whitespace. */
  predicate Trimmed(r: string) {
    r == [] || (!IsWhitespace(r[0]) && !IsWhitespace(r[|r| - 1]))
  }

  /** `s.trim()`: drops leading and trailing whitespace. */
  function Trim(s: string): (r: string)
    ensures |r| <= |s|
    ensures r == [] <==> IsBlank(s)
    ensures Trimmed(r)
  {
    var t := s[LeadingBlanks(s)..];
    var r := t[..TrailingStart(t)];
    TrimBlank(s);
    assert r != [] ==> r[0] == s[LeadingBlanks(s)];
    r
  }

  /** `s` is leading whitespace, then `Trim(s)`, then trailing whitespace. */
  lemma TrimMiddle(s: string)
    ensures var a := LeadingBlanks(s);
      && a + |Trim(s)| <= |s|
      && s[a..a + |Trim(s)|] == Trim(s)
      && IsBlank(s[..a]) && IsBlank(s[a + |Trim(s)|..])
  {
    var a := LeadingBlanks(s);
    var t := s[a..];
    var b := TrailingStart(t);
    assert Trim(s) == t[..b];
    assert s[a..a + b] == t[..b];
    assert s[a + b..] == t[b..];
  }

  lemma TrimBlank(s: string)
    ensures var t := s[LeadingBlanks(s)..]; t[..TrailingStart(t)] == [] <==> IsBlank(s)
  {
    var a := LeadingBlanks(s);
    var t := s[a..];
    if IsBlank(s) {
      BlankStart(s, a);
    }
    if t[..TrailingStart(t)] == [] {
      assert t[0..] == t;
      assert s[..a] + t == s;
      BlankConcat(s[..a], t);
    }
  }

  /** In a blank string, the first non-space is past the end. */
  lemma BlankStart(s: string, k: nat)
    requires IsBlank(s) && k <= |s| && (k < |s| ==> !IsWhitespace(s[k]))
    ensures k == |s|
  {
  }

  lemma BlankConcat(a: string, b: string)
    ensures IsBlank(a + b) <==> IsBlank(a) && IsBlank(b)
  {
    if IsBlank(a) && IsBlank(b) {
      forall i | 0 <= i < |a + b| ensures IsWhitespace((a + b)[i]) {
        if i >= |a| { assert (a + b)[i] == b[i - |a|]; }
      }
    }
    if IsBlank(a + b) {
      forall i | 0 <= i < |a| ensures IsWhitespace(a[i]) {
        assert (a + b)[i] == a[i];
      }
      forall i | 0 <= i < |b| ensures IsWhitespace(b[i]) {
        assert (a + b)[|a| + i] == b[i];
      }
    }
  }

  /** Trimming twice is trimming once. */
  lemma TrimIdempotent(s: string)
    ensures Trim(Trim(s)) == Trim(s)
  {
    TrimKeeps(Trim(s));
  }

  lemma TrimKeeps(r: string)
    requires Trimmed(r)
    ensures Trim(r) == r
  {
    var a := LeadingBlanks(r);
    NoLeadingBlanks(r, a);
    assert r[a..] == r;
    var b := TrailingStart(r);
    NoTrailingBlanks(r, b);
    assert r[..b] == r;
  }

  lemma NoLeadingBlanks(r: string, a: nat)
    requires Trimmed(r) && a <= |r| && IsBlank(r[..a])
    ensures a == 0
  {
  }

  lemma NoTrailingBlanks(r: string, b: nat)
    requires Trimmed(r) && b <= |r| && IsBlank(r[b..])
    ensures b == |r|
  {
  }

  /** `xs.join(sep)`. */
  function Join(xs: seq<string>, sep: string): (r: string)
    decreases |xs|
  {
    if |xs| == 0 then ""
    else if |xs| == 1 then xs[0]
    else xs[0] + sep + Join(xs[1..], sep)
  }

  /** The submission separator for multi-choice answers. */
  const ListSeparator := ", "

  /** True when `sep` occurs in `s` starting at index `i`. */
  predicate OccursAt(s: string, sep: string, i: int) {
    0 <= i && i + |sep| <= |s| && s[i..i + |sep|] == sep
  }

  predicate ContainsSep(s: string, sep: string) {
    exists i :: 0 <= i < |s| && OccursAt(s, sep, i)
  }

  /** The index of the first occurrence of `sep` in `s` at or after `from`, if any. */
  function FindFrom(s: string, sep: string, from: nat): (r: int)
    requires |sep| > 0
    decreases |s| - from
    ensures r == -1 || (from <= r && OccursAt(s, sep, r))
    ensures r == -1 ==> forall i :: from <= i ==> !OccursAt(s, sep, i)
    ensures r != -1 ==> forall i :: from <= i < r ==> !OccursAt(s, sep, i)
  {
    if from + |sep| > |s| then -1
    else if s[from..from + |sep|] == sep then from
    else FindFrom(s, sep, from + 1)
  }

  /** `s.split(sep)` for a non-empty separator: the pieces between occurrences. */
  function Split(s: string, sep: string): (r: seq<string>)
    requires |sep| > 0
    ensures |r| >= 1
    decreases |s|
  {
    var i := FindFrom(s, sep, 0);
    if i == -1 then [s] else [s[..i]] + Split(s[i + |sep|..], sep)
  }

  /**
   * A list joined with ", " is split back into the same list, provided it is
   * non-empty and no element contains ", ".
   */
  lemma {:induction false} SplitJoin(xs: seq<string>)
    requires |xs| > 0
    requires forall k :: 0 <= k < |xs| ==> !ContainsSep(xs[k], ListSeparator)
    ensures Split(Join(xs, ListSeparator), ListSeparator) == xs
    decreases |xs|
  {
    var sep := ListSeparator;
    var x := xs[0];
    if |xs| == 1 {
      NoSepFound(x);
    } else {
      var rest := Join(xs[1..], sep);
      var s := x + sep + rest;
      assert Join(xs, sep) == s;
      FirstSepAfter(x, rest);
      assert s[..|x|] == x;
      assert s[|x| + |sep|..] == rest;
      assert Split(s, sep) == [x] + Split(rest, sep);
      SplitJoin(xs[1..]);
      assert [xs[0]] + xs[1..] == xs;
    }
  }

  /** A string without ", " is split into itself alone. */
  lemma NoSepFound(x: string)
    requires !ContainsSep(x, ListSeparator)
    ensures Split(x, ListSeparator) == [x]
  {
    var i := FindFrom(x, ListSeparator, 0);
    assert i == -1 || OccursAt(x, ListSeparator, i);
  }

  /** In `x + ", " + rest`, with no ", " inside `x`, the first ", " is the one after `x`. */
  lemma FirstSepAfter(x: string, rest: string)
    requires !ContainsSep(x, ListSeparator)
    ensures FindFrom(x + ListSeparator + rest, ListSeparator, 0) == |x|
  {
    var sep := ListSeparator;
    var s := x + sep + rest;
    assert OccursAt(s, sep, |x|) by { assert s[|x|..|x| + 2] == sep; }
    forall i | 0 <= i < |x| ensures !OccursAt(s, sep, i) {
      if i + 2 <= |x| {
        assert s[i..i + 2] == x[i..i + 2];
        assert !OccursAt(x, sep, i);
      } else {
        assert s[i + 1] == ',';
      }
    }
  }
}
