/**
 * The per-channel groups of a CNU statistics line: `channel_regex` and the
 * `findall` over the channel segment (parser.py:34-42, :73, :95-106).
 */
module Channels {
  import opened Wrappers
  import opened Scan
  import opened Pattern

  /** One `<b: rb/p/s/rp,tb/tp>` group; every value is kept as the text that was matched. */
  datatype Channel = Channel(
    bandIndex: string,
    rxBitsPerSym: string,
    rxPower: string,
    rxSnr: string,
    rxPhyRate: string,
    txBitsPerSym: string,
    txPhyRate: string)
  {
    /** Six unsigned digit strings and a power that may carry one leading minus sign. */
    predicate Valid() {
      RunOf(bandIndex, Digit) && RunOf(rxBitsPerSym, Digit) && IsSigned(rxPower)
      && RunOf(rxSnr, Digit) && RunOf(rxPhyRate, Digit)
      && RunOf(txBitsPerSym, Digit) && RunOf(txPhyRate, Digit)
    }
  }

  /** `<(\d+):\s*(\d+)\/(-?\d+)\/(\d+)\/(\d+),(\d+)\/(\d+)>` */
  const GroupPattern: seq<Atom> := [
    Lit("<"), Run(Digit, true), Lit(":"), Run(Space, false),  // band index, then optional whitespace
    Run(Digit, true), Lit("/"),                               // rxBitsPerSym
    Signed, Lit("/"),                                         // rxPower
    Run(Digit, true), Lit("/"),                               // rxSnr
    Run(Digit, true), Lit(","),                               // rxPhyRate
    Run(Digit, true), Lit("/"),                               // txBitsPerSym
    Run(Digit, true), Lit(">")                                // txPhyRate
  ]

  lemma GroupPatternSeparated()
    ensures Separated(GroupPattern)
  {
    forall i | 0 <= i < |GroupPattern| && Open(GroupPattern[i])
      ensures SeparatedAt(GroupPattern, i)
    {
      if i == 3 {
        assert Excludes(Space, Run(Digit, true));
      }
    }
  }

  /** The pieces of one group; `pad` is the whitespace allowed after the band index's colon. */
  function GroupPieces(c: Channel, pad: string): seq<string> {
    ["<", c.bandIndex, ":", pad, c.rxBitsPerSym, "/", c.rxPower, "/", c.rxSnr,
     "/", c.rxPhyRate, ",", c.txBitsPerSym, "/", c.txPhyRate, ">"]
  }

  /** The text of one group. */
  function GroupText(c: Channel, pad: string): string {
    Concat(GroupPieces(c, pad))
  }

  /** The channel read from the pieces of a match (the groups of one `findall` tuple). */
  function ChannelOf(pieces: seq<string>): Channel
    requires |pieces| == |GroupPattern|
  {
    Channel(pieces[1], pieces[4], pieces[6], pieces[8], pieces[10], pieces[12], pieces[14])
  }

  /**
   * One match of `channel_regex` at the start of `t`: the group read and the text
   * after it, or `None` when no group starts here.
   */
  function ScanGroup(t: string): (r: Option<Cut<Channel>>)
    ensures r.Some? ==> r.value.value.Valid()
    ensures r.Some? ==> |r.value.rest| < |t| && t[0] == '<'
  {
    var m :- Match(GroupPattern, t);
    PiecesOfGroup(m.value);
    Some(Cut(ChannelOf(m.value), m.rest))
  }

  /** What a match reads is a group as written out, with some whitespace after the colon. */
  lemma {:induction false} ScanGroupText(t: string)
    requires ScanGroup(t).Some?
    ensures exists pad :: AllIn(pad, Space) && t == GroupText(ScanGroup(t).value.value, pad) + ScanGroup(t).value.rest
  {
    var m := Match(GroupPattern, t).value;
    PiecesOfGroup(m.value);
    assert AllIn(m.value[3], Space) && t == GroupText(ScanGroup(t).value.value, m.value[3]) + ScanGroup(t).value.rest;
  }

  /** The pieces of a match are those of the channel read from them. */
  lemma {:induction false} PiecesOfGroup(p: seq<string>)
    requires Fits(GroupPattern, p)
    ensures ChannelOf(p).Valid() && AllIn(p[3], Space)
    ensures p == GroupPieces(ChannelOf(p), p[3])
    ensures Concat(p) == "<" + Concat(p[1..])
  {
    var g := GroupPattern;
    assert g[0] == Lit("<") && FitsAtom(g[0], p[0]);
    assert g[2] == Lit(":") && FitsAtom(g[2], p[2]);
    assert g[5] == Lit("/") && FitsAtom(g[5], p[5]);
    assert g[7] == Lit("/") && FitsAtom(g[7], p[7]);
    assert g[9] == Lit("/") && FitsAtom(g[9], p[9]);
    assert g[11] == Lit(",") && FitsAtom(g[11], p[11]);
    assert g[13] == Lit("/") && FitsAtom(g[13], p[13]);
    assert g[15] == Lit(">") && FitsAtom(g[15], p[15]);
    assert g[1] == Run(Digit, true) && FitsAtom(g[1], p[1]);
    assert g[3] == Run(Space, false) && FitsAtom(g[3], p[3]);
    assert g[4] == Run(Digit, true) && FitsAtom(g[4], p[4]);
    assert g[6] == Signed && FitsAtom(g[6], p[6]);
    assert g[8] == Run(Digit, true) && FitsAtom(g[8], p[8]);
    assert g[10] == Run(Digit, true) && FitsAtom(g[10], p[10]);
    assert g[12] == Run(Digit, true) && FitsAtom(g[12], p[12]);
    assert g[14] == Run(Digit, true) && FitsAtom(g[14], p[14]);
  }

  /** A group written out in the shape the pattern describes is read back exactly. */
  lemma {:induction false} GroupComplete(c: Channel, pad: string, rest: string)
    requires c.Valid() && AllIn(pad, Space)
    ensures ScanGroup(GroupText(c, pad) + rest) == Some(Cut(c, rest))
  {
    var p := GroupPieces(c, pad);
    assert Fits(GroupPattern, p);
    GroupPatternSeparated();
    MatchComplete(GroupPattern, p, rest);
  }

  /**
   * `channel_regex.findall(segment)`: the groups found scanning left to right,
   * resuming after each match and moving one character on where none starts.
   */
  function FindAll(t: string): seq<Channel>
    decreases |t|
  {
    if t == [] then []
    else match ScanGroup(t)
      case Some(cut) => [cut.value] + FindAll(cut.rest)
      case None => FindAll(t[1..])
  }

  /** Every group found is well formed. */
  lemma {:induction false} FindAllValid(t: string)
    ensures forall i :: 0 <= i < |FindAll(t)| ==> FindAll(t)[i].Valid()
    decreases |t|
  {
    if t != [] {
      var g := ScanGroup(t);
      if g.Some? {
        FindAllValid(g.value.rest);
        FindAllAtGroup(t, g.value);
      } else {
        FindAllValid(t[1..]);
        NoGroupAt(t);
      }
    }
  }

  /**
   * A segment laid out as separators and groups in turn:
   * `seps[0] + group 0 + seps[1] + group 1 + ... + seps[n]`.
   */
  function Interleave(cs: seq<Channel>, pads: seq<string>, seps: seq<string>): string
    requires |pads| == |cs| && |seps| == |cs| + 1
    decreases |cs|
  {
    if cs == [] then seps[0]
    else seps[0] + GroupText(cs[0], pads[0]) + Interleave(cs[1..], pads[1..], seps[1..])
  }

  /** Text that holds no `<` cannot start a group, so the scan passes over it. */
  lemma {:induction false} FindAllSkips(junk: string, t: string)
    requires '<' !in junk
    ensures FindAll(junk + t) == FindAll(t)
    decreases |junk|
  {
    if junk != [] {
      var s := junk + t;
      assert s[0] == junk[0] && s[1..] == junk[1..] + t;
      NoGroupHere(s);
      FindAllSkips(junk[1..], t);
    } else {
      assert junk + t == t;
    }
  }

  /** No group starts at a character other than `<`. */
  lemma {:induction false} NoGroupHere(s: string)
    requires s != [] && s[0] != '<'
    ensures FindAll(s) == FindAll(s[1..])
  {
    NoGroupAt(s);
  }

  /** No group starts at any position of `s`, when `s` is scanned on its own. */
  predicate NoGroupIn(s: string) {
    forall k :: 0 <= k < |s| ==> ScanGroup(s[k..]).None?
  }

  /** The atom never matches text holding a `<`. */
  predicate ShutsOpen(a: Atom) {
    match a
    case Lit(s) => '<' !in s
    case Run(cl, _) => !cl.Has('<')
    case Signed => true
  }

  lemma {:induction false} ShutsOpenFits(a: Atom, p: string)
    requires ShutsOpen(a) && FitsAtom(a, p)
    ensures '<' !in p
  {
    if a.Signed? && !RunOf(p, Digit) {
      assert p == [p[0]] + p[1..];
    }
  }

  lemma {:induction false} ConcatShut(ps: seq<string>)
    requires forall i :: 0 <= i < |ps| ==> '<' !in ps[i]
    ensures '<' !in Concat(ps)
    decreases |ps|
  {
    if ps != [] {
      ConcatShut(ps[1..]);
    }
  }

  /** A group written out holds one `<`, its first character, and no other. */
  lemma {:induction false} GroupTextOpensOnce(c: Channel, pad: string)
    requires c.Valid() && AllIn(pad, Space)
    ensures GroupText(c, pad)[0] == '<' && '<' !in GroupText(c, pad)[1..]
  {
    var p := GroupPieces(c, pad);
    assert Fits(GroupPattern, p);
    forall i | 0 <= i < |p[1..]|
      ensures '<' !in p[1..][i]
    {
      assert ShutsOpen(GroupPattern[i + 1]);
      ShutsOpenFits(GroupPattern[i + 1], p[i + 1]);
    }
    ConcatShut(p[1..]);
    assert GroupText(c, pad)[1..] == Concat(p[1..]);
  }

  /** A group cannot reach past the end of `s` when what follows `s` starts with `<`. */
  lemma {:induction false} GroupEndsWithin(c: Channel, pad: string, x: string, s: string, rest: string)
    requires c.Valid() && AllIn(pad, Space)
    requires s != [] && (rest == [] || rest[0] == '<')
    requires s + rest == GroupText(c, pad) + x
    ensures |GroupText(c, pad)| <= |s|
  {
    var g := GroupText(c, pad);
    if |g| > |s| {
      AtJoin(s, rest, g, x);
      GroupTextOpensOnce(c, pad);
      assert false;
    }
  }

  /** When `g` is longer than `s`, the character of `g` just past `s` starts `rest`. */
  lemma {:induction false} AtJoin(s: string, rest: string, g: string, x: string)
    requires s + rest == g + x && |g| > |s|
    ensures rest != [] && g[|s|] == rest[0]
  {
    assert (s + rest)[|s|] == (g + x)[|s|];
  }

  /** When `s + rest` starts with `g` and `g` is no longer than `s`, `s` starts with `g`. */
  lemma {:induction false} PrefixWithin(s: string, rest: string, g: string, x: string)
    requires s + rest == g + x && |g| <= |s|
    ensures s == g + s[|g|..]
  {
    assert s[..|g|] == (s + rest)[..|g|] == g;
  }

  /**
   * A match cannot run on into a following `<`: when no group starts at the start
   * of `s`, none starts there either once a text beginning with `<` is appended.
   */
  lemma {:induction false} NoGroupBefore(s: string, rest: string)
    requires s != [] && ScanGroup(s).None?
    requires rest == [] || rest[0] == '<'
    ensures ScanGroup(s + rest).None?
  {
    var t := s + rest;
    if ScanGroup(t).Some? {
      var cut := ScanGroup(t).value;
      ScanGroupText(t);
      var pad :| AllIn(pad, Space) && t == GroupText(cut.value, pad) + cut.rest;
      var g := GroupText(cut.value, pad);
      GroupEndsWithin(cut.value, pad, cut.rest, s, rest);
      PrefixWithin(s, rest, g, cut.rest);
      GroupComplete(cut.value, pad, s[|g|..]);
    }
  }

  /** Text in which no group starts contributes no channels, whatever group follows it. */
  lemma {:induction false} FindAllPasses(junk: string, t: string)
    requires NoGroupIn(junk)
    requires t == [] || t[0] == '<'
    ensures FindAll(junk + t) == FindAll(t)
    decreases |junk|
  {
    if junk != [] {
      var s := junk + t;
      assert junk[0..] == junk;
      NoGroupBefore(junk, t);
      assert s[1..] == junk[1..] + t;
      NoGroupAt(s);
      forall k | 0 <= k < |junk[1..]|
        ensures ScanGroup(junk[1..][k..]).None?
      {
        assert junk[1..][k..] == junk[k + 1..];
      }
      FindAllPasses(junk[1..], t);
    } else {
      assert junk + t == t;
    }
  }

  /**
   * Round trip: groups separated by any text in which no group starts are found,
   * all of them, in order, and nothing else is.
   */
  lemma {:induction false} FindAllInterleaved(cs: seq<Channel>, pads: seq<string>, seps: seq<string>)
    requires |pads| == |cs| && |seps| == |cs| + 1
    requires forall i :: 0 <= i < |cs| ==> cs[i].Valid() && AllIn(pads[i], Space)
    requires forall i :: 0 <= i < |seps| ==> NoGroupIn(seps[i])
    ensures FindAll(Interleave(cs, pads, seps)) == cs
    decreases |cs|
  {
    if cs == [] {
      FindAllPasses(seps[0], []);
      assert seps[0] + [] == seps[0];
    } else {
      var tail := Interleave(cs[1..], pads[1..], seps[1..]);
      var g := GroupText(cs[0], pads[0]);
      assert Interleave(cs, pads, seps) == seps[0] + (g + tail);
      GroupComplete(cs[0], pads[0], tail);
      assert (g + tail)[0] == '<';
      FindAllPasses(seps[0], g + tail);
      FindAllInterleaved(cs[1..], pads[1..], seps[1..]);
      assert [cs[0]] + cs[1..] == cs;
    }
  }

  /**
   * Every result of the scan is laid out in the text: the segment is its groups,
   * in the order returned, with some text between and around them.
   */
  lemma {:induction false} FindAllLaidOut(t: string)
    ensures HasLayout(t, FindAll(t))
    decreases |t|
  {
    if t == [] {
      assert LaidOut(t, [], [], [[]]);
    } else if ScanGroup(t).Some? {
      var cut := ScanGroup(t).value;
      FindAllLaidOut(cut.rest);
      ScanGroupText(t);
      var pad :| AllIn(pad, Space) && t == GroupText(cut.value, pad) + cut.rest;
      FindAllAtGroup(t, cut);
      HasLayoutGroup(t, cut.value, pad, cut.rest);
    } else {
      FindAllLaidOut(t[1..]);
      NoGroupAt(t);
      HasLayoutSkip(t, FindAll(t));
    }
  }

  lemma {:induction false} HasLayoutGroup(t: string, c: Channel, pad: string, rest: string)
    requires AllIn(pad, Space) && t == GroupText(c, pad) + rest
    requires HasLayout(rest, FindAll(rest))
    ensures HasLayout(t, [c] + FindAll(rest))
  {
    var pads, seps :| LaidOut(rest, FindAll(rest), pads, seps);
    LaidOutGroup(t, c, pad, rest, FindAll(rest), pads, seps);
  }

  lemma {:induction false} HasLayoutSkip(t: string, r: seq<Channel>)
    requires t != [] && HasLayout(t[1..], r)
    ensures HasLayout(t, r)
  {
    var pads, seps :| LaidOut(t[1..], r, pads, seps);
    LaidOutSkip(t, r, pads, seps);
  }

  lemma {:induction false} FindAllAtGroup(t: string, cut: Cut<Channel>)
    requires ScanGroup(t) == Some(cut)
    ensures FindAll(t) == [cut.value] + FindAll(cut.rest)
  {
  }

  lemma {:induction false} NoGroupAt(t: string)
    requires t != [] && ScanGroup(t).None?
    ensures FindAll(t) == FindAll(t[1..])
  {
  }

  lemma {:induction false} LaidOutGroup(t: string, c: Channel, pad: string, rest: string,
                     rs: seq<Channel>, pads: seq<string>, seps: seq<string>)
    requires AllIn(pad, Space) && t == GroupText(c, pad) + rest
    requires LaidOut(rest, rs, pads, seps)
    ensures LaidOut(t, [c] + rs, [pad] + pads, [[]] + seps)
  {
    var r := [c] + rs;
    assert r[1..] == rs && ([pad] + pads)[1..] == pads && ([[]] + seps)[1..] == seps;
  }

  lemma {:induction false} LaidOutSkip(t: string, r: seq<Channel>, pads: seq<string>, seps: seq<string>)
    requires t != [] && LaidOut(t[1..], r, pads, seps)
    ensures LaidOut(t, r, pads, [[t[0]] + seps[0]] + seps[1..])
  {
    InterleaveFirst(r, pads, seps, [t[0]]);
    assert t == [t[0]] + t[1..];
  }

  /** `t` is the groups `cs` with some whitespace inside them and some text around them. */
  ghost predicate HasLayout(t: string, cs: seq<Channel>) {
    exists pads, seps {:trigger LaidOut(t, cs, pads, seps)} :: LaidOut(t, cs, pads, seps)
  }

  /** `t` is the groups `cs`, with whitespace `pads` inside them and text `seps` around them. */
  predicate LaidOut(t: string, cs: seq<Channel>, pads: seq<string>, seps: seq<string>) {
    |pads| == |cs| && |seps| == |cs| + 1
    && (forall i :: 0 <= i < |pads| ==> AllIn(pads[i], Space))
    && t == Interleave(cs, pads, seps)
  }

  lemma {:induction false} InterleaveFirst(cs: seq<Channel>, pads: seq<string>, seps: seq<string>, x: string)
    requires |pads| == |cs| && |seps| == |cs| + 1
    ensures Interleave(cs, pads, [x + seps[0]] + seps[1..]) == x + Interleave(cs, pads, seps)
  {
    var seps2 := [x + seps[0]] + seps[1..];
    assert seps2[0] == x + seps[0] && seps2[1..] == seps[1..];
    if cs != [] {
      var g := GroupText(cs[0], pads[0]);
      var rest := Interleave(cs[1..], pads[1..], seps[1..]);
      calc {
        Interleave(cs, pads, seps2);
        (x + seps[0]) + g + rest;
        x + (seps[0] + g + rest);
      }
    }
  }
}
