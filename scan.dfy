/**
 * The building blocks of the two regular expressions of parser.py, written as
 * deterministic scanners over text: character classes, the `x*` and `x+` runs
 * (always maximal, because every run in both patterns ends at a character its
 * class excludes), fixed literals, the search for the first occurrence of a
 * marker (the lazy `.*?` before `per channel`) and Python's `str.strip()`.
 */
module Scan {
  import opened Wrappers

  /**
   * Whitespace as Python's `re` (on `str` patterns) and `str.strip()` both define
   * it: the characters CPython's `Py_UNICODE_ISSPACE` accepts.
   */
  predicate IsSpace(c: char) {
    ('\t' <= c <= '\r') || ('\U{1C}' <= c <= ' ') || c == '\U{85}' || c == '\U{A0}'
    || c == '\U{1680}' || ('\U{2000}' <= c <= '\U{200A}') || c == '\U{2028}' || c == '\U{2029}'
    || c == '\U{202F}' || c == '\U{205F}' || c == '\U{3000}'
  }

  /** `\d`, restricted to the ASCII digits. */
  predicate IsDigit(c: char) {
    '0' <= c <= '9'
  }

  /** `\w`, restricted to the ASCII letters, digits and underscore. */
  predicate IsWordChar(c: char) {
    ('a' <= c <= 'z') || ('A' <= c <= 'Z') || IsDigit(c) || c == '_'
  }

  /** The character classes that occur in the two patterns. */
  datatype CharClass =
    | Space       // \s
    | Digit       // \d
    | Word        // \w
    | DigitOrDot  // [\d\.]
    | NameChar    // [^\s:]
    | NotClose    // [^>]
  {
    predicate Has(c: char) {
      match this
      case Space => IsSpace(c)
      case Digit => IsDigit(c)
      case Word => IsWordChar(c)
      case DigitOrDot => IsDigit(c) || c == '.'
      case NameChar => !IsSpace(c) && c != ':'
      case NotClose => c != '>'
    }
  }

  /** Every character of `s` is in `cl` (what `cl*` can consume). */
  predicate AllIn(s: string, cl: CharClass) {
    forall k :: 0 <= k < |s| ==> cl.Has(s[k])
  }

  /** `s` is a non-empty run of `cl` (what `cl+` can consume). */
  predicate RunOf(s: string, cl: CharClass) {
    |s| > 0 && AllIn(s, cl)
  }

  /** A run of `cl` cannot continue into `s`: it is empty or starts outside `cl`. */
  predicate Halts(s: string, cl: CharClass) {
    s == [] || !cl.Has(s[0])
  }

  /** A split of the text into what one step of a pattern produced and the text after it. */
  datatype Cut<T> = Cut(value: T, rest: string)

  /** The length of the longest prefix of `t` whose characters are all in `cl`. */
  function Span(t: string, cl: CharClass): (n: nat)
    ensures n <= |t|
    ensures AllIn(t[..n], cl)
    ensures Halts(t[n..], cl)
    decreases |t|
  {
    if t == [] || !cl.Has(t[0]) then 0 else 1 + Span(t[1..], cl)
  }

  /** `cl*`, greedy: it always succeeds, possibly with an empty run. */
  function Star(t: string, cl: CharClass): (c: Cut<string>)
    ensures AllIn(c.value, cl) && Halts(c.rest, cl)
    ensures t == c.value + c.rest
  {
    var n := Span(t, cl);
    Cut(t[..n], t[n..])
  }

  /** `cl+`, greedy: it fails exactly when `t` does not start with a character of `cl`. */
  function Plus(t: string, cl: CharClass): (r: Option<Cut<string>>)
    ensures r.Some? <==> !Halts(t, cl)
    ensures r.Some? ==> RunOf(r.value.value, cl) && Halts(r.value.rest, cl)
    ensures r.Some? ==> t == r.value.value + r.value.rest
  {
    var c := Star(t, cl);
    if c.value == [] then None else Some(c)
  }

  /** A fixed piece of text: succeeds exactly when `t` starts with `lit`, giving what follows it. */
  function Literal(t: string, lit: string): (r: Option<string>)
    ensures r.Some? <==> lit <= t
    ensures r.Some? ==> t == lit + r.value
  {
    if lit <= t then Some(t[|lit|..]) else None
  }

  /** The run of a class that `x` fills completely and `y` stops is exactly `x`. */
  lemma {:induction false} StarOf(x: string, y: string, cl: CharClass)
    requires AllIn(x, cl) && Halts(y, cl)
    ensures Star(x + y, cl) == Cut(x, y)
  {
    assert (x + y)[..|x|] == x && (x + y)[|x|..] == y;
  }

  lemma {:induction false} PlusOf(x: string, y: string, cl: CharClass)
    requires RunOf(x, cl) && Halts(y, cl)
    ensures Plus(x + y, cl) == Some(Cut(x, y))
  {
    StarOf(x, y, cl);
  }

  lemma {:induction false} LiteralOf(lit: string, y: string)
    ensures Literal(lit + y, lit) == Some(y)
  {
    assert (lit + y)[|lit|..] == y;
  }

  /** `pat` occurs in `t` starting at index `k`. */
  predicate OccursAt(t: string, pat: string, k: nat) {
    k + |pat| <= |t| && t[k..k + |pat|] == pat
  }

  /** The index of the first occurrence of `pat` in `t`, the one a lazy `.*?pat` stops at. */
  function FindFirst(t: string, pat: string): (r: Option<nat>)
    ensures r.Some? ==> OccursAt(t, pat, r.value)
    ensures forall k: nat :: (r.None? || k < r.value) ==> !OccursAt(t, pat, k)
    decreases |t|
  {
    if pat <= t then Some(0)
    else if t == [] then None
    else
      var r := FindFirst(t[1..], pat);
      assert forall k: nat :: 0 < k && OccursAt(t, pat, k) ==> OccursAt(t[1..], pat, k - 1) by {
        forall k: nat | 0 < k && OccursAt(t, pat, k) ensures OccursAt(t[1..], pat, k - 1) {
          assert t[1..][k - 1..k - 1 + |pat|] == t[k..k + |pat|];
        }
      }
      assert !OccursAt(t, pat, 0);
      if r.None? then None
      else
        assert t[r.value + 1..r.value + 1 + |pat|] == t[1..][r.value..r.value + |pat|];
        Some(r.value + 1)
  }

  /** `s` has no whitespace at either end (what `str.strip()` returns). */
  predicate Trimmed(s: string) {
    s == [] || (!IsSpace(s[0]) && !IsSpace(s[|s| - 1]))
  }

  /** Drops the trailing whitespace of `s`. */
  function TrimEnd(s: string): (r: string)
    ensures r <= s && AllIn(s[|r|..], Space)
    ensures r == [] || !IsSpace(r[|r| - 1])
    decreases |s|
  {
    if s != [] && IsSpace(s[|s| - 1]) then TrimEnd(s[..|s| - 1]) else s
  }

  /** Python's `str.strip()` with no argument: whitespace removed from both ends. */
  function Strip(s: string): (r: string)
    ensures Trimmed(r)
  {
    var lead := Star(s, Space);
    TrimEnd(lead.rest)
  }

  /** `s` is `r` with the whitespace `a` before it and `b` after it. */
  predicate Padded(s: string, r: string, a: string, b: string) {
    AllIn(a, Space) && AllIn(b, Space) && s == a + r + b
  }

  /** What stripping removes is whitespace, from the two ends only. */
  lemma {:induction false} StripPieces(s: string) returns (a: string, b: string)
    ensures Padded(s, Strip(s), a, b)
  {
    var lead := Star(s, Space);
    a := lead.value;
    b := TrimEndPieces(a, lead.rest);
  }

  /** Trimming the end of `u` drops whitespace only. */
  lemma {:induction false} TrimEndPieces(a: string, u: string) returns (b: string)
    requires AllIn(a, Space)
    ensures Padded(a + u, TrimEnd(u), a, b)
  {
    var r := TrimEnd(u);
    b := u[|r|..];
    assert u[..|r|] == r;
    assert u == r + b;
    assert a + r + b == a + (r + b);
  }

  /** Stripping text padded with whitespace on both sides gives back the text. */
  lemma {:induction false} StripPadded(a: string, x: string, b: string)
    requires AllIn(a, Space) && AllIn(b, Space) && Trimmed(x)
    ensures Strip(a + x + b) == x
  {
    if x == [] {
      assert a + x + b == a + b;
      StarOf(a + b, [], Space);
      assert (a + b) + [] == a + b;
      TrimEndAllSpace(Star(a + b, Space).rest);
    } else {
      assert a + x + b == a + (x + b);
      StarOf(a, x + b, Space);
      TrimEndPadded(x, b);
    }
  }

  lemma {:induction false} TrimEndAllSpace(s: string)
    requires AllIn(s, Space)
    ensures TrimEnd(s) == []
    decreases |s|
  {
    if s != [] {
      TrimEndAllSpace(s[..|s| - 1]);
    }
  }

  lemma {:induction false} TrimEndPadded(x: string, b: string)
    requires x != [] && !IsSpace(x[|x| - 1]) && AllIn(b, Space)
    ensures TrimEnd(x + b) == x
    decreases |b|
  {
    if b == [] {
      assert x + b == x;
    } else {
      assert (x + b)[..|x + b| - 1] == x + b[..|b| - 1];
      TrimEndPadded(x, b[..|b| - 1]);
    }
  }

  /** Stripping twice is stripping once. */
  lemma {:induction false} StripIdempotent(s: string)
    ensures Strip(Strip(s)) == Strip(s)
  {
    var r := Strip(s);
    assert [] + r + [] == r;
    StripPadded([], r, []);
  }
}
