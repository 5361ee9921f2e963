/**
 * `parse_cnu_line` (parser.py:44-108): one log line to a CNU statistics record,
 * or `None` when the line does not have the header's shape.
 */
module CnuParser {
  import opened Wrappers
  import opened Scan
  import opened Pattern
  import opened Channels
  import opened Header

  /** The record `parse_cnu_line` builds; every value is text taken from the line. */
  datatype Record = Record(
    timestamp: string,
    traceLevel: string,
    moduleName: string,
    functionName: string,
    sourceLine: string,
    mocaPort: string,
    mocaPortDev: string,
    cnuId: string,
    cnuMac: string,
    sourceType: string,   // "0": reported by the Micronode, otherwise by the CNU
    rxGood: string,
    rxBad: string,
    rxBadPercent: string,
    channels: seq<Channel>)
  {
    /**
     * What a parsed record always satisfies: each header value is a non-empty run of
     * its pattern's class, except the two stripped values, which have no whitespace
     * at either end, hold no `>`, and may be empty; every channel is well formed.
     */
    predicate Valid() {
      RunOf(timestamp, DigitOrDot) && RunOf(traceLevel, Word) && RunOf(moduleName, Word)
      && RunOf(functionName, NameChar) && RunOf(sourceLine, Digit) && RunOf(mocaPort, Digit)
      && Trimmed(mocaPortDev) && AllIn(mocaPortDev, NotClose)
      && RunOf(cnuId, Digit)
      && Trimmed(cnuMac) && AllIn(cnuMac, NotClose)
      && RunOf(sourceType, Digit) && RunOf(rxGood, Digit) && RunOf(rxBad, Digit)
      && RunOf(rxBadPercent, DigitOrDot)
      && forall i :: 0 <= i < |channels| ==> channels[i].Valid()
    }
  }

  /** Stripping keeps every character inside its class. */
  lemma {:induction false} StripWithin(s: string, cl: CharClass)
    requires AllIn(s, cl)
    ensures AllIn(Strip(s), cl)
  {
    var r := Strip(s);
    var a, b := StripPieces(s);
    forall k | 0 <= k < |r| ensures cl.Has(r[k]) {
      assert r[k] == s[|a| + k];
    }
  }

  /** The captured groups of a match lie in their classes. */
  lemma {:induction false} GroupClasses(m: HeaderMatch)
    requires m.Valid()
    ensures forall n :: 1 <= n <= 14 ==> RunOf(m.Group(n), GroupClass[n - 1])
  {
    forall n | 1 <= n <= 14 ensures RunOf(m.Group(n), GroupClass[n - 1]) {
      GroupAtoms(n);
      assert FitsAtom(HeaderPattern[GroupAtom[n - 1]], m.pieces[GroupAtom[n - 1]]);
    }
  }

  /** The record built from a match (parser.py:53-106): group 1 is dropped, groups 8 and 10 are stripped. */
  function RecordOf(m: HeaderMatch): (r: Record)
    requires m.Valid()
    ensures r.Valid()
  {
    GroupClasses(m);
    assert RunOf(m.Group(8), NotClose) && RunOf(m.Group(10), NotClose);
    StripWithin(m.Group(8), NotClose);
    StripWithin(m.Group(10), NotClose);
    FindAllValid(m.Group(15));
    Record(
      m.Group(2), m.Group(3), m.Group(4), m.Group(5), m.Group(6),
      m.Group(7), Strip(m.Group(8)), m.Group(9), Strip(m.Group(10)), m.Group(11),
      m.Group(12), m.Group(13), m.Group(14),
      FindAll(m.Group(15)))
  }

  /** `parse_cnu_line(line)`. */
  function Parse(line: string): Option<Record> {
    var m :- MatchHeader(line);
    Some(RecordOf(m))
  }

  /** Whatever is parsed is a valid record. */
  lemma {:induction false} ParseValid(line: string)
    ensures Parse(line).Some? ==> Parse(line).value.Valid()
  {
    var r := MatchHeader(line);
    if r.Some? {
      assert Parse(line).value == RecordOf(r.value);
    }
  }

  /**
   * All or nothing: a line is parsed exactly when it can be read as the whole header
   * shape; there is no partial record.
   */
  lemma {:induction false} ParseAcceptsExactly(line: string)
    ensures Parse(line).Some? <==> exists m: HeaderMatch :: m.Valid() && m.Text() == line
  {
    if m: HeaderMatch :| m.Valid() && m.Text() == line {
      MatchHeaderComplete(m);
    }
  }

  /**
   * Round trip: a line assembled from pieces that fit the header parses to those
   * pieces, verbatim, except the port device and the MAC, which come back stripped;
   * the channels are the groups of the segment after the first marker.
   */
  lemma {:induction false} ParseRoundTrip(m: HeaderMatch)
    requires m.Valid()
    ensures Parse(m.Text()) == Some(Record(
      m.pieces[3], m.pieces[5], m.pieces[7], m.pieces[10], m.pieces[14],
      m.pieces[18], Strip(m.pieces[20]), m.pieces[22], Strip(m.pieces[24]), m.pieces[26],
      m.pieces[31], m.pieces[34], m.pieces[37], FindAll(m.tail.segment)))
  {
    MatchHeaderComplete(m);
    assert Parse(m.Text()) == Some(RecordOf(m));
    RecordOfPieces(m);
  }

  lemma {:induction false} RecordOfPieces(m: HeaderMatch)
    requires m.Valid()
    ensures RecordOf(m) == Record(
      m.pieces[3], m.pieces[5], m.pieces[7], m.pieces[10], m.pieces[14],
      m.pieces[18], Strip(m.pieces[20]), m.pieces[22], Strip(m.pieces[24]), m.pieces[26],
      m.pieces[31], m.pieces[34], m.pieces[37], FindAll(m.tail.segment))
  {
  }

  /**
   * A line in whose channel segment no group starts at any position still parses,
   * with no channels.
   */
  lemma {:induction false} NoGroupsNoChannels(m: HeaderMatch)
    requires m.Valid() && NoGroupIn(m.tail.segment)
    ensures Parse(m.Text()).Some? && Parse(m.Text()).value.channels == []
  {
    ParseRoundTrip(m);
    FindAllPasses(m.tail.segment, []);
    assert m.tail.segment + [] == m.tail.segment;
  }

  /** The identifier is checked but not kept: two lines that differ only there parse alike. */
  lemma {:induction false} IdentifierDropped(m: HeaderMatch, id: string)
    requires m.Valid() && RunOf(id, Digit)
    ensures Parse(HeaderMatch(m.pieces[1 := id], m.tail).Text()) == Parse(m.Text())
  {
    var m' := HeaderMatch(m.pieces[1 := id], m.tail);
    assert FitsAtom(HeaderPattern[1], id);
    assert m'.Valid();
    ParseRoundTrip(m);
    ParseRoundTrip(m');
  }

  /** The channel groups written back to back, with no whitespace inside them and nothing between them. */
  function GroupsText(cs: seq<Channel>): string
    decreases |cs|
  {
    if cs == [] then [] else GroupText(cs[0], []) + GroupsText(cs[1..])
  }

  /**
   * The pieces of the line a device would write for record `r` under identifier
   * `id`: no optional whitespace, one space where the Rx tag demands some.
   */
  function HeaderPieces(id: string, r: Record): seq<string> {
    ["", id, ":", r.timestamp, ":", r.traceLevel, ":", r.moduleName, ":",
     "", r.functionName, "", ":", "", r.sourceLine, ":", "",
     "<", r.mocaPort, ":", r.mocaPortDev, ">,<", r.cnuId, ",", r.cnuMac, ">,<", r.sourceType, ">", "",
     "<Rx Good/Bad,Percent", " ", r.rxGood, "/", " ", r.rxBad, ",", " ", r.rxBadPercent, "%>"]
  }

  /** That line: the header, the marker right after the Rx tag, then the groups back to back. */
  function LineFor(id: string, r: Record): string {
    Concat(HeaderPieces(id, r)) + Marker + GroupsText(r.channels)
  }

  function Empties(n: nat): seq<string> {
    seq(n, _ => "")
  }

  lemma {:induction false} GroupsTextLaidOut(cs: seq<Channel>)
    ensures GroupsText(cs) == Interleave(cs, Empties(|cs|), Empties(|cs| + 1))
    decreases |cs|
  {
    if cs == [] {
      assert Empties(1)[0] == "";
    } else {
      var pads, seps := Empties(|cs|), Empties(|cs| + 1);
      GroupsTextLaidOut(cs[1..]);
      assert pads[0] == "" && seps[0] == "";
      assert pads[1..] == Empties(|cs| - 1) && seps[1..] == Empties(|cs|);
      var g := GroupText(cs[0], "");
      assert Interleave(cs, pads, seps) == "" + g + Interleave(cs[1..], pads[1..], seps[1..]);
      assert "" + g == g;
    }
  }

  /**
   * Inverse: a valid record whose two stripped values are non-empty is written out
   * by `LineFor` and parsed back to itself.
   */
  lemma {:induction false} ParseLineFor(id: string, r: Record)
    requires r.Valid() && RunOf(id, Digit) && r.mocaPortDev != [] && r.cnuMac != []
    ensures Parse(LineFor(id, r)) == Some(r)
  {
    var m := MatchFor(id, r);
    MatchForValid(id, r);
    GroupsTextFound(r.channels);
    HeaderPiecesAt(id, r);
    StripTrimmed(r.mocaPortDev);
    StripTrimmed(r.cnuMac);
    ParseRoundTrip(m);
  }

  lemma {:induction false} HeaderPiecesAt(id: string, r: Record)
    ensures var p := HeaderPieces(id, r);
      p[3] == r.timestamp && p[5] == r.traceLevel && p[7] == r.moduleName
      && p[10] == r.functionName && p[14] == r.sourceLine && p[18] == r.mocaPort
      && p[20] == r.mocaPortDev && p[22] == r.cnuId && p[24] == r.cnuMac
      && p[26] == r.sourceType && p[31] == r.rxGood && p[34] == r.rxBad && p[37] == r.rxBadPercent
  {
    HeaderPiecesAtFront(id, r);
    HeaderPiecesAtMiddle(id, r);
    HeaderPiecesAtBack(id, r);
  }

  lemma {:induction false} HeaderPiecesAtFront(id: string, r: Record)
    ensures var p := HeaderPieces(id, r);
      p[3] == r.timestamp && p[5] == r.traceLevel && p[7] == r.moduleName && p[10] == r.functionName
  {
  }

  lemma {:induction false} HeaderPiecesAtMiddle(id: string, r: Record)
    ensures var p := HeaderPieces(id, r);
      p[14] == r.sourceLine && p[18] == r.mocaPort && p[20] == r.mocaPortDev && p[22] == r.cnuId
  {
  }

  lemma {:induction false} HeaderPiecesAtBack(id: string, r: Record)
    ensures var p := HeaderPieces(id, r);
      p[24] == r.cnuMac && p[26] == r.sourceType && p[31] == r.rxGood && p[34] == r.rxBad && p[37] == r.rxBadPercent
  {
  }

  /** The match that `LineFor(id, r)` is made of. */
  function MatchFor(id: string, r: Record): HeaderMatch {
    HeaderMatch(HeaderPieces(id, r), Tail([], [], GroupsText(r.channels)))
  }

  lemma {:induction false} MatchForValid(id: string, r: Record)
    requires r.Valid() && RunOf(id, Digit) && r.mocaPortDev != [] && r.cnuMac != []
    ensures MatchFor(id, r).Valid() && MatchFor(id, r).Text() == LineFor(id, r)
  {
    HeaderPiecesFit(id, r);
    GroupsTextStart(r.channels);
    var tl := MatchFor(id, r).tail;
    assert tl.Text() == Marker + GroupsText(r.channels);
  }

  /** The groups written back to back are found again, all of them, in order. */
  lemma {:induction false} GroupsTextFound(cs: seq<Channel>)
    requires forall i :: 0 <= i < |cs| ==> cs[i].Valid()
    ensures FindAll(GroupsText(cs)) == cs
  {
    GroupsTextLaidOut(cs);
    FindAllInterleaved(cs, Empties(|cs|), Empties(|cs| + 1));
  }

  lemma {:induction false} HeaderPiecesFit(id: string, r: Record)
    requires r.Valid() && RunOf(id, Digit) && r.mocaPortDev != [] && r.cnuMac != []
    ensures Fits(HeaderPattern, HeaderPieces(id, r))
  {
    var p := HeaderPieces(id, r);
    assert |p| == |HeaderPattern|;
    HeaderPiecesFitFront(id, r);
    HeaderPiecesFitMiddle(id, r);
    HeaderPiecesFitBack(id, r);
  }

  lemma {:induction false} HeaderPiecesFitFront(id: string, r: Record)
    requires RunOf(id, Digit) && RunOf(r.timestamp, DigitOrDot) && RunOf(r.traceLevel, Word)
    requires RunOf(r.moduleName, Word) && RunOf(r.functionName, NameChar)
    ensures forall i :: 0 <= i < 13 ==> FitsAtom(HeaderPattern[i], HeaderPieces(id, r)[i])
  {
  }

  lemma {:induction false} HeaderPiecesFitMiddle(id: string, r: Record)
    requires RunOf(r.sourceLine, Digit) && RunOf(r.mocaPort, Digit) && RunOf(r.mocaPortDev, NotClose)
    requires RunOf(r.cnuId, Digit) && RunOf(r.cnuMac, NotClose)
    ensures forall i :: 13 <= i < 26 ==> FitsAtom(HeaderPattern[i], HeaderPieces(id, r)[i])
  {
  }

  lemma {:induction false} HeaderPiecesFitBack(id: string, r: Record)
    requires RunOf(r.sourceType, Digit) && RunOf(r.rxGood, Digit)
    requires RunOf(r.rxBad, Digit) && RunOf(r.rxBadPercent, DigitOrDot)
    ensures forall i :: 26 <= i < 39 ==> FitsAtom(HeaderPattern[i], HeaderPieces(id, r)[i])
  {
  }

  /** Groups written back to back start with `<`, so no whitespace run continues into them. */
  lemma {:induction false} GroupsTextStart(cs: seq<Channel>)
    ensures Halts(GroupsText(cs), Space)
  {
    if cs != [] {
      var p := GroupPieces(cs[0], "");
      assert Concat(p) == p[0] + Concat(p[1..]);
      assert GroupsText(cs)[0] == '<';
    }
  }

  /** A trimmed text is its own strip. */
  lemma {:induction false} StripTrimmed(s: string)
    requires Trimmed(s)
    ensures Strip(s) == s
  {
    assert [] + s + [] == s;
    StripPadded([], s, []);
  }
}
