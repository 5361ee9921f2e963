/**
 * The loop of `main` (parser.py:126-168): each input line is stripped of its
 * newline and parsed; a parsed line is written out as a block, a rejected line is
 * kept, and with the debug flag the kept lines are listed after all blocks.
 * The output is modelled as the sequence of lines written, without terminators.
 */
module Driver {
  import opened Wrappers
  import opened Sequences
  import opened Channels
  import opened CnuParser
  import opened Report

  /** `line.rstrip("\n")` (parser.py:129): every trailing newline removed, nothing else. */
  function TrimNewlines(s: string): (r: string)
    ensures r <= s && (r == [] || r[|r| - 1] != '\n')
    ensures forall k :: |r| <= k < |s| ==> s[k] == '\n'
    decreases |s|
  {
    if s != [] && s[|s| - 1] == '\n' then TrimNewlines(s[..|s| - 1]) else s
  }

  /** One input line as the loop sees it: its text without the newline, and what the parser made of it. */
  datatype Verdict = Verdict(line: string, parsed: Option<Record>)

  /** The verdict on one raw input line (parser.py:129-130). */
  function Judge(raw: string): Verdict {
    var line := TrimNewlines(raw);
    Verdict(line, Parse(line))
  }

  /** The verdicts on all input lines, in input order. */
  function Verdicts(raw: seq<string>): (vs: seq<Verdict>)
    ensures |vs| == |raw|
  {
    Map(Judge, raw)
  }

  /** The records of the lines that parse, in input order. */
  function Matched(vs: seq<Verdict>): seq<Record>
    decreases |vs|
  {
    if vs == [] then []
    else
      var earlier := Matched(vs[..|vs| - 1]);
      match vs[|vs| - 1].parsed
      case Some(r) => earlier + [r]
      case None => earlier
  }

  /** The lines that do not parse, in input order (parser.py:131-134). */
  function Rejected(vs: seq<Verdict>): seq<string>
    decreases |vs|
  {
    if vs == [] then []
    else
      var earlier := Rejected(vs[..|vs| - 1]);
      var v := vs[|vs| - 1];
      if v.parsed.None? then earlier + [v.line] else earlier
  }

  /** The blocks of the records, one after the other. */
  function Blocks(rs: seq<Record>): seq<string> {
    FlatMap(Render, rs)
  }

  const DebugBanner := "=== DEBUG MODE: NO MATCH LINES ==="

  /** One `NO MATCH` line per rejected line (parser.py:167-168). */
  function NoMatchLines(ls: seq<string>): (out: seq<string>)
    ensures |out| == |ls|
    decreases |ls|
  {
    if ls == [] then [] else NoMatchLines(ls[..|ls| - 1]) + ["NO MATCH: " + ls[|ls| - 1]]
  }

  /** The debug listing: an empty line, the banner, then the rejected lines (parser.py:165-168). */
  function DebugSection(ls: seq<string>): seq<string> {
    ["", DebugBanner] + NoMatchLines(ls)
  }

  /** Everything written for the verdicts `vs`. */
  function Transcript(vs: seq<Verdict>, debug: bool): seq<string> {
    var rejected := Rejected(vs);
    Blocks(Matched(vs)) + (if debug && rejected != [] then DebugSection(rejected) else [])
  }

  /** Everything `main` writes for the input lines `raw`. */
  function Output(raw: seq<string>, debug: bool): seq<string> {
    Transcript(Verdicts(raw), debug)
  }

  /** The loop of `main`, writing line by line as the source does. */
  method Process(raw: seq<string>, debug: bool) returns (out: seq<string>)
    ensures out == Output(raw, debug)
  {
    ghost var vs := Verdicts(raw);
    var noMatch: seq<string> := [];
    out := [];
    for i := 0 to |raw|
      invariant out == Blocks(Matched(vs[..i]))
      invariant noMatch == Rejected(vs[..i])
    {
      var line := TrimNewlines(raw[i]);
      var parsed := Parse(line);
      MapAt(Judge, raw, i);
      Step(vs, i);
      if parsed.None? {
        noMatch := noMatch + [line];
      } else {
        FlatMapStep(Render, Matched(vs[..i]), parsed.value);
        out := WriteBlock(out, parsed.value);
      }
    }
    assert vs[..|raw|] == vs;
    out := WriteDebug(out, noMatch, debug);
  }

  /** Writes the block of one record after `out` (parser.py:137-162). */
  method WriteBlock(out: seq<string>, p: Record) returns (out': seq<string>)
    ensures out' == out + Render(p)
  {
    out' := out + RenderHead(p);
    for j := 0 to |p.channels|
      invariant out' == out + RenderHead(p) + ChannelLines(p.channels[..j])
    {
      ChannelLinesStep(p.channels, j);
      out' := out' + [ChannelLine(p.channels[j])];
    }
    assert p.channels[..|p.channels|] == p.channels;
    out' := out' + [Divider];
    RenderParts(out, p);
  }

  /** Writes the debug listing after `out` when it is asked for and not empty (parser.py:165-168). */
  method WriteDebug(out: seq<string>, noMatch: seq<string>, debug: bool) returns (out': seq<string>)
    ensures out' == out + (if debug && noMatch != [] then DebugSection(noMatch) else [])
  {
    out' := out;
    if debug && |noMatch| > 0 {
      out' := out' + ["", DebugBanner];
      ghost var head := out';
      for j := 0 to |noMatch|
        invariant out' == head + NoMatchLines(noMatch[..j])
      {
        NoMatchLinesStep(noMatch, j);
        out' := out' + ["NO MATCH: " + noMatch[j]];
      }
      assert noMatch[..|noMatch|] == noMatch;
      assert out' == out + (["", DebugBanner] + NoMatchLines(noMatch));
    }
  }

  /** What one more verdict adds to the records and the rejections. */
  lemma {:induction false} Step(vs: seq<Verdict>, i: nat)
    requires i < |vs|
    ensures vs[i].parsed.Some? ==> Matched(vs[..i + 1]) == Matched(vs[..i]) + [vs[i].parsed.value]
    ensures vs[i].parsed.Some? ==> Rejected(vs[..i + 1]) == Rejected(vs[..i])
    ensures vs[i].parsed.None? ==> Matched(vs[..i + 1]) == Matched(vs[..i])
    ensures vs[i].parsed.None? ==> Rejected(vs[..i + 1]) == Rejected(vs[..i]) + [vs[i].line]
  {
    assert vs[..i + 1][..i] == vs[..i];
  }

  lemma {:induction false} NoMatchLinesStep(ls: seq<string>, j: nat)
    requires j < |ls|
    ensures NoMatchLines(ls[..j + 1]) == NoMatchLines(ls[..j]) + ["NO MATCH: " + ls[j]]
  {
    assert ls[..j + 1][..j] == ls[..j];
  }

  lemma {:induction false} ChannelLinesStep(cs: seq<Channel>, j: nat)
    requires j < |cs|
    ensures ChannelLines(cs[..j + 1]) == ChannelLines(cs[..j]) + [ChannelLine(cs[j])]
  {
    assert cs[..j + 1][..j] == cs[..j];
  }

  lemma {:induction false} RenderParts(out: seq<string>, p: Record)
    ensures out + RenderHead(p) + ChannelLines(p.channels) + [Divider] == out + Render(p)
  {
  }

  /** `rstrip("\n")` removes exactly the trailing newlines. */
  lemma {:induction false} TrimNewlinesExact(s: string, n: nat)
    requires s == [] || s[|s| - 1] != '\n'
    ensures TrimNewlines(s + seq(n, _ => '\n')) == s
    decreases n
  {
    var t := s + seq(n, _ => '\n');
    if n > 0 {
      assert t[..|t| - 1] == s + seq(n - 1, _ => '\n');
      TrimNewlinesExact(s, n - 1);
    } else {
      assert t == s;
    }
  }

  /** Every record comes from a verdict, and every rejected line from a verdict without a record. */
  lemma {:induction false} Provenance(vs: seq<Verdict>)
    ensures forall r :: r in Matched(vs) ==> exists i :: 0 <= i < |vs| && vs[i].parsed == Some(r)
    ensures forall l :: l in Rejected(vs) ==> exists i :: 0 <= i < |vs| && vs[i] == Verdict(l, None)
    decreases |vs|
  {
    if vs != [] {
      var n := |vs| - 1;
      Provenance(vs[..n]);
      forall r | r in Matched(vs) ensures exists i :: 0 <= i < |vs| && vs[i].parsed == Some(r) {
        if r in Matched(vs[..n]) {
          var i :| 0 <= i < n && vs[..n][i].parsed == Some(r);
          assert vs[i] == vs[..n][i];
        } else {
          assert vs[n].parsed == Some(r);
        }
      }
      forall l | l in Rejected(vs) ensures exists i :: 0 <= i < |vs| && vs[i] == Verdict(l, None) {
        if l in Rejected(vs[..n]) {
          var i :| 0 <= i < n && vs[..n][i] == Verdict(l, None);
          assert vs[i] == vs[..n][i];
        } else {
          assert vs[n] == Verdict(l, None);
        }
      }
    }
  }

  /** Every record written is a valid parse, and every line listed as rejected indeed fails to parse. */
  lemma {:induction false} Sorted(raw: seq<string>)
    ensures forall r :: r in Matched(Verdicts(raw)) ==> r.Valid()
    ensures forall l :: l in Rejected(Verdicts(raw)) ==> Parse(l).None?
  {
    var vs := Verdicts(raw);
    Provenance(vs);
    forall r | r in Matched(vs) ensures r.Valid() {
      var i :| 0 <= i < |vs| && vs[i].parsed == Some(r);
      MapAt(Judge, raw, i);
      ParseValid(vs[i].line);
    }
    forall l | l in Rejected(vs) ensures Parse(l).None? {
      var i :| 0 <= i < |vs| && vs[i] == Verdict(l, None);
      MapAt(Judge, raw, i);
    }
  }

  /** Every line is either parsed or rejected, never both and never dropped. */
  lemma {:induction false} Partition(vs: seq<Verdict>)
    ensures |Matched(vs)| + |Rejected(vs)| == |vs|
    decreases |vs|
  {
    if vs != [] {
      Partition(vs[..|vs| - 1]);
    }
  }

  /** Input order is kept: the records and rejections of two inputs in sequence are concatenated. */
  lemma {:induction false} MatchedAppend(a: seq<Verdict>, b: seq<Verdict>)
    ensures Matched(a + b) == Matched(a) + Matched(b)
    ensures Rejected(a + b) == Rejected(a) + Rejected(b)
    decreases |b|
  {
    if b == [] {
      assert a + b == a;
    } else {
      var b' := b[..|b| - 1];
      assert (a + b)[..|a + b| - 1] == a + b';
      assert (a + b)[|a + b| - 1] == b[|b| - 1];
      MatchedAppend(a, b');
    }
  }

  /** Without the debug flag, the output of two inputs in sequence is the two outputs in sequence. */
  lemma {:induction false} OutputAppend(a: seq<string>, b: seq<string>)
    ensures Output(a + b, false) == Output(a, false) + Output(b, false)
  {
    var va, vb := Verdicts(a), Verdicts(b);
    calc {
      Output(a + b, false);
      { Quiet(Verdicts(a + b)); }
      Blocks(Matched(Verdicts(a + b)));
      { MapAppend(Judge, a, b); }
      Blocks(Matched(va + vb));
      { MatchedAppend(va, vb); }
      Blocks(Matched(va) + Matched(vb));
      { FlatMapAppend(Render, Matched(va), Matched(vb)); }
      Blocks(Matched(va)) + Blocks(Matched(vb));
      { Quiet(va); Quiet(vb); }
      Output(a, false) + Output(b, false);
    }
  }

  /** Without the debug flag only the blocks are written. */
  lemma {:induction false} Quiet(vs: seq<Verdict>)
    ensures Transcript(vs, false) == Blocks(Matched(vs))
  {
    assert Blocks(Matched(vs)) + [] == Blocks(Matched(vs));
  }

  /** Every line of the blocks is non-empty and starts with `-`, a space or a capital letter. */
  lemma {:induction false} BlocksLead(rs: seq<Record>)
    ensures forall l :: l in Blocks(rs) ==> Leads(l)
    decreases |rs|
  {
    if rs != [] {
      BlocksLead(rs[..|rs| - 1]);
      RenderLinesLead(rs[|rs| - 1]);
    }
  }

  /**
   * The banner appears exactly when the debug flag is set and some line was
   * rejected; it can never be mistaken for a line of a block.
   */
  lemma {:induction false} BannerShown(vs: seq<Verdict>, debug: bool)
    ensures DebugBanner in Transcript(vs, debug) <==> debug && Rejected(vs) != []
  {
    var blocks := Blocks(Matched(vs));
    BlocksLead(Matched(vs));
    assert DebugBanner[0] == '=';
    assert !Leads(DebugBanner);
    if debug && Rejected(vs) != [] {
      assert Transcript(vs, debug)[|blocks| + 1] == DebugBanner;
    } else {
      assert Transcript(vs, debug) == blocks;
    }
  }

  /** With the flag set, the output ends with one `NO MATCH` line per rejected line, in input order. */
  lemma {:induction false} DebugListing(vs: seq<Verdict>)
    requires Rejected(vs) != []
    ensures var out := Transcript(vs, true); var ls := Rejected(vs);
      |out| == |Blocks(Matched(vs))| + 2 + |ls|
      && forall i :: 0 <= i < |ls| ==> out[|out| - |ls| + i] == "NO MATCH: " + ls[i]
  {
    var ls := Rejected(vs);
    var out := Transcript(vs, true);
    var tail := NoMatchLines(ls);
    assert out == Blocks(Matched(vs)) + ["", DebugBanner] + tail;
    NoMatchLinesAt(ls);
    forall i | 0 <= i < |ls| ensures out[|out| - |ls| + i] == "NO MATCH: " + ls[i] {
      assert out[|out| - |ls| + i] == tail[i];
    }
  }

  lemma {:induction false} NoMatchLinesAt(ls: seq<string>)
    ensures forall i :: 0 <= i < |ls| ==> NoMatchLines(ls)[i] == "NO MATCH: " + ls[i]
    decreases |ls|
  {
    if ls != [] {
      NoMatchLinesAt(ls[..|ls| - 1]);
    }
  }
}
