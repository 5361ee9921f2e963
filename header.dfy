/**
 * The header pattern `line_regex` (parser.py:20-31): everything from the leading
 * whitespace to the `%>` closing the Rx tag as one separated pattern, then the lazy
 * `.*?per channel\s*(.*)$` that picks out the channel segment.
 */
module Header {
  import opened Wrappers
  import opened Scan
  import opened Pattern

  /** `^\s*(\d+):([\d\.]+):(\w+):(\w+):\s*([^\s:]+)\s*:\s*(\d+):\s*<(\d+):([^>]+)>,<(\d+),([^>]+)>,<(\d+)>\s*<Rx Good/Bad,Percent\s+(\d+)\/\s+(\d+),\s+([\d\.]+)%>` */
  const HeaderPattern: seq<Atom> := Origin + Address + RxTag

  /** `^\s*(\d+):([\d\.]+):(\w+):(\w+):\s*([^\s:]+)\s*:\s*(\d+):\s*` (parser.py:21-27), atoms 0 to 16. */
  const Origin: seq<Atom> := [
    Run(Space, false),                                   //  0  leading whitespace
    Run(Digit, true), Lit(":"),                          //  1  (1) identifier
    Run(DigitOrDot, true), Lit(":"),                     //  3  (2) timestamp
    Run(Word, true), Lit(":"),                           //  5  (3) trace level
    Run(Word, true), Lit(":"),                           //  7  (4) module
    Run(Space, false), Run(NameChar, true),              // 10  (5) function
    Run(Space, false), Lit(":"), Run(Space, false),
    Run(Digit, true), Lit(":"), Run(Space, false)        // 14  (6) source line
  ]

  /** `<(\d+):([^>]+)>,<(\d+),([^>]+)>,<(\d+)>\s*` (parser.py:28), atoms 17 to 28. */
  const Address: seq<Atom> := [
    Lit("<"), Run(Digit, true), Lit(":"),                // 18  (7) MoCA port
    Run(NotClose, true), Lit(">,<"),                     // 20  (8) port device
    Run(Digit, true), Lit(","),                          // 22  (9) CNU id
    Run(NotClose, true), Lit(">,<"),                     // 24  (10) CNU MAC
    Run(Digit, true), Lit(">"), Run(Space, false)        // 26  (11) source type
  ]

  /** `<Rx Good/Bad,Percent\s+(\d+)\/\s+(\d+),\s+([\d\.]+)%>` (parser.py:29), atoms 29 to 38. */
  const RxTag: seq<Atom> := [
    Lit("<Rx Good/Bad,Percent"), Run(Space, true),
    Run(Digit, true), Lit("/"), Run(Space, true),        // 31  (12) Rx good
    Run(Digit, true), Lit(","), Run(Space, true),        // 34  (13) Rx bad
    Run(DigitOrDot, true), Lit("%>")                     // 37  (14) Rx bad percent
  ]

  /** The index in `HeaderPattern` of the atom that captures group `n`, for n in 1..14. */
  const GroupAtom: seq<nat> := [1, 3, 5, 7, 10, 14, 18, 20, 22, 24, 26, 31, 34, 37]

  /** The class of the run that captures group `n`, for n in 1..14. */
  const GroupClass: seq<CharClass> :=
    [Digit, DigitOrDot, Word, Word, NameChar, Digit, Digit, NotClose, Digit, NotClose, Digit, Digit, Digit, DigitOrDot]

  lemma {:induction false} GroupAtoms(n: nat)
    requires 1 <= n <= 14
    ensures GroupAtom[n - 1] < |HeaderPattern| && HeaderPattern[GroupAtom[n - 1]] == Run(GroupClass[n - 1], true)
  {
  }

  lemma HeaderPatternSeparated()
    ensures Separated(HeaderPattern)
  {
    SeparatedFront();
    SeparatedMiddle();
    SeparatedBack();
  }

  lemma SeparatedFront()
    ensures forall i :: 0 <= i < 13 && Open(HeaderPattern[i]) ==> SeparatedAt(HeaderPattern, i)
  {
    var h := HeaderPattern;
    assert Excludes(Space, Run(Digit, true)) && Excludes(Space, Run(NameChar, true));
    assert Excludes(NameChar, Run(Space, false));
    forall i | 0 <= i < 13 && Open(h[i]) ensures SeparatedAt(h, i) {
    }
  }

  lemma SeparatedMiddle()
    ensures forall i :: 13 <= i < 26 && Open(HeaderPattern[i]) ==> SeparatedAt(HeaderPattern, i)
  {
    assert Excludes(Space, Run(Digit, true));
  }

  lemma SeparatedBack()
    ensures forall i :: 26 <= i < 39 && Open(HeaderPattern[i]) ==> SeparatedAt(HeaderPattern, i)
  {
    assert Excludes(Space, Run(Digit, true)) && Excludes(Space, Run(DigitOrDot, true));
  }

  /** The text the lazy `.*?` stops at. */
  const Marker := "per channel"

  /** `.*?per channel\s*(.*)$`: the text skipped, the whitespace after the marker, and the channel segment. */
  datatype Tail = Tail(skipped: string, pad: string, segment: string)
  {
    /** The skipped text reaches the FIRST marker, and the whitespace run is maximal. */
    predicate Valid() {
      (forall k: nat :: k < |skipped| ==> !OccursAt(skipped + Marker, Marker, k))
      && AllIn(pad, Space) && Halts(segment, Space)
    }

    function Text(): string {
      skipped + Marker + pad + segment
    }
  }

  /** Within the first `k + |pat|` characters, an occurrence is one in `t[..k] + pat` when `pat` is at `k`. */
  lemma {:induction false} OccursBefore(t: string, pat: string, k: nat, j: nat)
    requires OccursAt(t, pat, k) && j < k
    ensures OccursAt(t, pat, j) <==> OccursAt(t[..k] + pat, pat, j)
  {
    var u := t[..k + |pat|];
    assert u == t[..k] + pat;
    if j + |pat| <= k + |pat| {
      assert t[j..j + |pat|] == u[j..j + |pat|];
    }
  }

  /** Cutting a text at the first occurrence of `pat`: no occurrence before it, even counting `pat` itself. */
  lemma {:induction false} FirstOccurrence(t: string, pat: string, k: nat)
    requires OccursAt(t, pat, k) && forall j: nat :: j < k ==> !OccursAt(t, pat, j)
    ensures forall j: nat :: j < k ==> !OccursAt(t[..k] + pat, pat, j)
    ensures t == t[..k] + pat + t[k + |pat|..]
  {
    forall j: nat | j < k ensures !OccursAt(t[..k] + pat, pat, j) {
      OccursBefore(t, pat, k, j);
    }
    assert t == t[..k + |pat|] + t[k + |pat|..];
  }

  /** The first occurrence of `pat` in `s + pat + rest` is the one after `s` when `s + pat` has no earlier one. */
  lemma {:induction false} FirstOccurrenceOf(s: string, pat: string, rest: string)
    requires forall j: nat :: j < |s| ==> !OccursAt(s + pat, pat, j)
    ensures FindFirst(s + pat + rest, pat) == Some(|s|)
  {
    var t := s + pat + rest;
    var k := |s|;
    assert t[..k + |pat|] == s + pat;
    assert t[k..k + |pat|] == pat;
    assert t[..k] == s;
    assert OccursAt(t, pat, k);
    var r := FindFirst(t, pat);
    assert r.Some? && r.value <= k;
    if r.value < k {
      OccursBefore(t, pat, k, r.value);
      assert false;
    }
  }

  /** The tail of the pattern matched against the text after the Rx tag; `None` when the marker is missing. */
  function ScanTail(t: string): (r: Option<Tail>)
    ensures r.Some? ==> r.value.Valid() && r.value.Text() == t
    ensures r.None? <==> forall k: nat :: !OccursAt(t, Marker, k)
  {
    var k :- FindFirst(t, Marker);
    Some(TailAt(t, k))
  }

  /** The tail read from the first marker at `k`: the whitespace after it, then the segment. */
  function TailAt(t: string, k: nat): (tl: Tail)
    requires OccursAt(t, Marker, k) && forall j: nat :: j < k ==> !OccursAt(t, Marker, j)
    ensures tl.Valid() && tl.Text() == t
  {
    TailAtFirst(t, k);
    var after := Star(t[k + |Marker|..], Space);
    Tail(t[..k], after.value, after.rest)
  }

  lemma {:induction false} TailAtFirst(t: string, k: nat)
    requires OccursAt(t, Marker, k) && forall j: nat :: j < k ==> !OccursAt(t, Marker, j)
    ensures var after := Star(t[k + |Marker|..], Space);
      Tail(t[..k], after.value, after.rest).Valid() && Tail(t[..k], after.value, after.rest).Text() == t
  {
    var rest := t[k + |Marker|..];
    var after := Star(rest, Space);
    FirstOccurrence(t, Marker, k);
    var tl := Tail(t[..k], after.value, after.rest);
    assert tl.Text() == t[..k] + Marker + rest;
  }

  lemma {:induction false} TailComplete(tl: Tail)
    requires tl.Valid()
    ensures ScanTail(tl.Text()) == Some(tl)
  {
    var t := tl.Text();
    var k := |tl.skipped|;
    assert t == tl.skipped + Marker + (tl.pad + tl.segment);
    FirstOccurrenceOf(tl.skipped, Marker, tl.pad + tl.segment);
    assert t[k + |Marker|..] == tl.pad + tl.segment;
    StarOf(tl.pad, tl.segment, Space);
    assert t[..k] == tl.skipped;
  }

  /** A match of the whole header pattern: the text each atom consumed, and the tail. */
  datatype HeaderMatch = HeaderMatch(pieces: seq<string>, tail: Tail)
  {
    predicate Valid() {
      Fits(HeaderPattern, pieces) && tail.Valid()
    }

    function Text(): string {
      Concat(pieces) + tail.Text()
    }

    /** `m.group(n)`: groups 1 to 14 are header atoms, group 15 is the channel segment. */
    function Group(n: nat): string
      requires Valid() && 1 <= n <= 15
    {
      if n == 15 then tail.segment else pieces[GroupAtom[n - 1]]
    }
  }

  /** `line_regex.match(line)`, or `None` when the line does not have the header's shape. */
  function MatchHeader(line: string): (r: Option<HeaderMatch>)
    ensures r.Some? ==> r.value.Valid() && r.value.Text() == line
  {
    var head :- Match(HeaderPattern, line);
    var tail :- ScanTail(head.rest);
    Some(HeaderMatch(head.value, tail))
  }

  /** Every line that has the header's shape is matched, with exactly its own pieces. */
  lemma {:induction false} MatchHeaderComplete(m: HeaderMatch)
    requires m.Valid()
    ensures MatchHeader(m.Text()) == Some(m)
  {
    HeaderPatternSeparated();
    MatchComplete(HeaderPattern, m.pieces, m.tail.Text());
    TailComplete(m.tail);
  }

  /** The match is the one and only way to read a line as the header's shape. */
  lemma {:induction false} MatchHeaderExactly(line: string, m: HeaderMatch)
    ensures MatchHeader(line) == Some(m) <==> m.Valid() && m.Text() == line
  {
    if m.Valid() && m.Text() == line {
      MatchHeaderComplete(m);
    }
  }
}
