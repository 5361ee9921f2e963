/**
 * The text block `main` writes for each parsed record (parser.py:137-162), one
 * string per output line, without the line terminator.
 */
module Report {
  import opened Scan
  import opened Pattern
  import opened Channels
  import opened CnuParser

  /**
   * The rule written above and below every block: 51 hyphens (parser.py:137, :162),
   * written as 26 and 25 so that the halves stay short; `DividerHyphens` counts them.
   */
  const Divider := "--------------------------" + "-------------------------"

  lemma DividerHyphens()
    ensures |Divider| == 51
    ensures forall k :: 0 <= k < |Divider| ==> Divider[k] == '-'
  {
  }

  /** The source of the statistics, as the block names it (parser.py:146). */
  function SourceName(sourceType: string): (name: string)
    ensures name == "Micronode" || name == "CNU"
  {
    if sourceType == "0" then "Micronode" else "CNU"
  }

  /** The source type a reader of the block can recover: "0" for the Micronode, "1" otherwise. */
  function SourceTypeOf(name: string): string {
    if name == "Micronode" then "0" else "1"
  }

  /** Labels and values alternated: `labels[0] + values[0] + labels[1] + ... + labels[n]`. */
  function Fill(labels: seq<string>, values: seq<string>): string
    requires |labels| == |values| + 1
    decreases |values|
  {
    if values == [] then labels[0] else labels[0] + values[0] + Fill(labels[1..], values[1..])
  }

  /** The length of the longest prefix of `s` without a space. */
  function UpToSpace(s: string): (n: nat)
    ensures n <= |s| && (n < |s| ==> s[n] == ' ')
    ensures forall k :: 0 <= k < n ==> s[k] != ' '
    decreases |s|
  {
    if s == [] || s[0] == ' ' then 0 else 1 + UpToSpace(s[1..])
  }

  /** `s` without its first `n` characters (empty when it is shorter). */
  function Drop(s: string, n: nat): string {
    if n <= |s| then s[n..] else []
  }

  /** `s` without its last `n` characters (empty when it is shorter). */
  function Chop(s: string, n: nat): string {
    if n <= |s| then s[..|s| - n] else []
  }

  /**
   * Reads the values back out of a filled line, knowing only the labels' lengths:
   * every value but the last ends at the first space, the last ends where the
   * closing label begins.
   */
  function Unfill(labels: seq<string>, s: string): (values: seq<string>)
    requires |labels| >= 1
    ensures |values| == |labels| - 1
    decreases |labels|
  {
    if |labels| == 1 then []
    else
      var t := Drop(s, |labels[0]|);
      if |labels| == 2 then [Chop(t, |labels[1]|)]
      else
        var n := UpToSpace(t);
        [t[..n]] + Unfill(labels[1..], t[n..])
  }

  /** Every label between two values opens with a space. */
  predicate SpaceLed(labels: seq<string>) {
    forall i :: 1 <= i < |labels| - 1 ==> |labels[i]| > 0 && labels[i][0] == ' '
  }

  /** No value holds a space, except possibly the last. */
  predicate SpaceFree(values: seq<string>) {
    forall i :: 0 <= i < |values| - 1 ==> forall k :: 0 <= k < |values[i]| ==> values[i][k] != ' '
  }

  lemma {:induction false} FillStart(labels: seq<string>, values: seq<string>)
    requires |labels| == |values| + 1
    ensures labels[0] <= Fill(labels, values)
  {
  }

  lemma {:induction false} UpToSpaceAt(v: string, rest: string)
    requires forall k :: 0 <= k < |v| ==> v[k] != ' '
    requires |rest| > 0 && rest[0] == ' '
    ensures UpToSpace(v + rest) == |v|
    decreases |v|
  {
    if v != [] {
      assert (v + rest)[1..] == v[1..] + rest;
      UpToSpaceAt(v[1..], rest);
    }
  }

  /** Reading a filled line gives back the values it was filled with. */
  lemma {:induction false} FillUnfill(labels: seq<string>, values: seq<string>)
    requires |labels| == |values| + 1 && SpaceLed(labels) && SpaceFree(values)
    ensures Unfill(labels, Fill(labels, values)) == values
    decreases |values|
  {
    if |values| == 1 {
      var t := values[0] + labels[1];
      assert Fill(labels, values) == labels[0] + t;
      assert Drop(labels[0] + t, |labels[0]|) == t;
      assert Chop(t, |labels[1]|) == values[0];
    } else if |values| > 1 {
      var f := Fill(labels[1..], values[1..]);
      var t := values[0] + f;
      assert Fill(labels, values) == labels[0] + t;
      assert Drop(labels[0] + t, |labels[0]|) == t;
      FillStart(labels[1..], values[1..]);
      assert f[0] == labels[1][0];
      UpToSpaceAt(values[0], f);
      assert t[..|values[0]|] == values[0] && t[|values[0]|..] == f;
      assert SpaceLed(labels[1..]) && SpaceFree(values[1..]) by {
        forall i | 1 <= i < |labels| - 2 ensures |labels[1..][i]| > 0 && labels[1..][i][0] == ' ' {
          assert labels[1..][i] == labels[i + 1];
        }
        forall i | 0 <= i < |values| - 2
          ensures forall k :: 0 <= k < |values[1..][i]| ==> values[1..][i][k] != ' '
        {
          assert values[1..][i] == values[i + 1];
        }
      }
      FillUnfill(labels[1..], values[1..]);
    }
  }

  /** The labels around the seven values of a channel line (parser.py:153-161). */
  const ChannelLabels := [
    "  BandIndex: ", " | RX bits/sym: ", " | Power: ", " dBm? | SNR: ",
    " dB | RX PHY: ", " Mbps | TX bits/sym: ", " | TX PHY: ", " Mbps"]

  function ChannelValues(c: Channel): seq<string> {
    [c.bandIndex, c.rxBitsPerSym, c.rxPower, c.rxSnr, c.rxPhyRate, c.txBitsPerSym, c.txPhyRate]
  }

  /** The line written for one channel. */
  function ChannelLine(c: Channel): string {
    Fill(ChannelLabels, ChannelValues(c))
  }

  /** The channel a channel line was written for. */
  function ReadChannel(line: string): Channel {
    var v := Unfill(ChannelLabels, line);
    Channel(v[0], v[1], v[2], v[3], v[4], v[5], v[6])
  }

  lemma {:induction false} DigitsSpaceFree(s: string)
    requires AllIn(s, Digit)
    ensures forall k :: 0 <= k < |s| ==> s[k] != ' '
  {
    forall k | 0 <= k < |s| ensures s[k] != ' ' {
      assert Digit.Has(s[k]);
    }
  }

  lemma {:induction false} SignedSpaceFree(s: string)
    requires IsSigned(s)
    ensures forall k :: 0 <= k < |s| ==> s[k] != ' '
  {
    if !RunOf(s, Digit) {
      forall k | 1 <= k < |s| ensures s[k] != ' ' {
        assert Digit.Has(s[1..][k - 1]);
      }
    } else {
      DigitsSpaceFree(s);
    }
  }

  /** A channel line is read back to the channel it was written for. */
  lemma {:induction false} ReadChannelLine(c: Channel)
    requires c.Valid()
    ensures ReadChannel(ChannelLine(c)) == c
  {
    var v := ChannelValues(c);
    DigitsSpaceFree(c.bandIndex);
    DigitsSpaceFree(c.rxBitsPerSym);
    SignedSpaceFree(c.rxPower);
    DigitsSpaceFree(c.rxSnr);
    DigitsSpaceFree(c.rxPhyRate);
    DigitsSpaceFree(c.txBitsPerSym);
    assert SpaceFree(v);
    assert SpaceLed(ChannelLabels);
    FillUnfill(ChannelLabels, v);
  }

  /** The labels around the port and its device (parser.py:143). */
  const PortLabels := ["MoCA Port:  ", " (", ")"]

  /**
   * The fourteen lines before the channel lines: the rule, thirteen labelled values
   * (every label twelve characters wide), and the channel heading.
   */
  function RenderHead(r: Record): seq<string> {
    [Divider,
     "Timestamp:  " + r.timestamp,
     "Level:      " + r.traceLevel,
     "Module:     " + r.moduleName,
     "Function:   " + r.functionName,
     "Line:       " + r.sourceLine,
     Fill(PortLabels, [r.mocaPort, r.mocaPortDev]),
     "CNU ID:     " + r.cnuId,
     "CNU MAC:    " + r.cnuMac,
     "Source:     " + SourceName(r.sourceType),
     "Rx Good:    " + r.rxGood,
     "Rx Bad:     " + r.rxBad,
     "Rx % Bad:   " + r.rxBadPercent,
     "Channel Stats:"]
  }

  /** One line per channel, in the order the channels were found. */
  function ChannelLines(cs: seq<Channel>): (lines: seq<string>)
    ensures |lines| == |cs| && forall i :: 0 <= i < |cs| ==> lines[i] == ChannelLine(cs[i])
    decreases |cs|
  {
    if cs == [] then [] else ChannelLines(cs[..|cs| - 1]) + [ChannelLine(cs[|cs| - 1])]
  }

  /** The whole block for one record, closed by the rule. */
  function Render(r: Record): (lines: seq<string>)
    ensures |lines| == 15 + |r.channels|
  {
    RenderHead(r) + ChannelLines(r.channels) + [Divider]
  }

  /**
   * A block is framed by the rule, has the channel heading at line 13, and one
   * line per channel after it, in order.
   */
  lemma {:induction false} RenderShape(r: Record)
    ensures var lines := Render(r);
      && lines[0] == Divider && lines[|lines| - 1] == Divider
      && lines[13] == "Channel Stats:"
      && forall i :: 0 <= i < |r.channels| ==> lines[14 + i] == ChannelLine(r.channels[i])
  {
  }

  /** The record a block's fourteen head lines show, with the channels `cs`. */
  function ReadHead(h: seq<string>, cs: seq<Channel>): Record
    requires |h| == 14
  {
    var port := Unfill(PortLabels, h[6]);
    Record(
      Drop(h[1], 12), Drop(h[2], 12), Drop(h[3], 12), Drop(h[4], 12),
      Drop(h[5], 12), port[0], port[1], Drop(h[7], 12), Drop(h[8], 12),
      SourceTypeOf(Drop(h[9], 12)), Drop(h[10], 12), Drop(h[11], 12),
      Drop(h[12], 12), cs)
  }

  /** The channels of the channel lines of a block. */
  function ReadChannels(lines: seq<string>): (cs: seq<Channel>)
    requires |lines| >= 15
    ensures |cs| == |lines| - 15
  {
    ReadAll(lines[14..|lines| - 1])
  }

  /** The channel of each channel line, in order. */
  function ReadAll(ls: seq<string>): (cs: seq<Channel>)
    ensures |cs| == |ls|
  {
    if ls == [] then [] else [ReadChannel(ls[0])] + ReadAll(ls[1..])
  }

  /** The record a rendered block shows, with the source type read from its name. */
  function ReadBack(lines: seq<string>): Record
    requires |lines| >= 15
  {
    ReadHead(lines[..14], ReadChannels(lines))
  }

  /** The source type with every value other than "0" shown, and so read, as "1". */
  function Normalised(sourceType: string): string {
    if sourceType == "0" then "0" else "1"
  }

  lemma {:induction false} DropLabel(tag: string, v: string)
    requires |tag| == 12
    ensures Drop(tag + v, 12) == v
  {
    assert (tag + v)[12..] == v;
  }

  lemma {:induction false} ReadPort(r: Record)
    requires r.Valid()
    ensures Unfill(PortLabels, Fill(PortLabels, [r.mocaPort, r.mocaPortDev])) == [r.mocaPort, r.mocaPortDev]
  {
    DigitsSpaceFree(r.mocaPort);
    FillUnfill(PortLabels, [r.mocaPort, r.mocaPortDev]);
  }

  lemma {:induction false} ReadRenderedHead(r: Record)
    requires r.Valid()
    ensures ReadHead(RenderHead(r), r.channels) == r.(sourceType := Normalised(r.sourceType))
  {
    DropLabel("Timestamp:  ", r.timestamp);
    DropLabel("Level:      ", r.traceLevel);
    DropLabel("Module:     ", r.moduleName);
    DropLabel("Function:   ", r.functionName);
    DropLabel("Line:       ", r.sourceLine);
    ReadPort(r);
    DropLabel("CNU ID:     ", r.cnuId);
    DropLabel("CNU MAC:    ", r.cnuMac);
    DropLabel("Source:     ", SourceName(r.sourceType));
    DropLabel("Rx Good:    ", r.rxGood);
    DropLabel("Rx Bad:     ", r.rxBad);
    DropLabel("Rx % Bad:   ", r.rxBadPercent);
  }

  /**
   * The block loses nothing but the exact source type: reading it back gives the
   * record, with the source type normalised to "0" or "1".
   */
  lemma {:induction false} RenderReadBack(r: Record)
    requires r.Valid()
    ensures ReadBack(Render(r)) == r.(sourceType := Normalised(r.sourceType))
  {
    var lines := Render(r);
    assert lines[..14] == RenderHead(r);
    RenderShape(r);
    ReadRenderedChannels(lines, r.channels);
    ReadRenderedHead(r);
  }

  lemma {:induction false} ReadRenderedChannels(lines: seq<string>, cs: seq<Channel>)
    requires |lines| == 15 + |cs|
    requires forall i :: 0 <= i < |cs| ==> cs[i].Valid() && lines[14 + i] == ChannelLine(cs[i])
    ensures ReadChannels(lines) == cs
  {
    var ls := lines[14..|lines| - 1];
    forall i | 0 <= i < |cs| ensures cs[i].Valid() && ls[i] == ChannelLine(cs[i]) {
      assert ls[i] == lines[14 + i];
    }
    ReadAllLines(ls, cs);
  }

  /** Reading the line of each valid channel gives the channels back. */
  lemma {:induction false} ReadAllLines(ls: seq<string>, cs: seq<Channel>)
    requires |ls| == |cs|
    requires forall i :: 0 <= i < |cs| ==> cs[i].Valid() && ls[i] == ChannelLine(cs[i])
    ensures ReadAll(ls) == cs
    decreases |cs|
  {
    if cs != [] {
      ReadChannelLine(cs[0]);
      ReadAllLines(ls[1..], cs[1..]);
      assert cs == [cs[0]] + cs[1..];
    }
  }

  /** Two valid records with the same block differ at most in how their source type is spelled. */
  lemma {:induction false} RenderInjective(r1: Record, r2: Record)
    requires r1.Valid() && r2.Valid() && Render(r1) == Render(r2)
    ensures r1.(sourceType := "") == r2.(sourceType := "")
    ensures (r1.sourceType == "0") == (r2.sourceType == "0")
  {
    RenderReadBack(r1);
    RenderReadBack(r2);
  }

  /** The source line names the Micronode exactly when the source type is "0". */
  lemma {:induction false} RenderSource(r: Record)
    ensures Render(r)[9] == "Source:     Micronode" <==> r.sourceType == "0"
    ensures Render(r)[9] == "Source:     CNU" <==> r.sourceType != "0"
  {
    var s := Render(r)[9];
    assert s == "Source:     " + SourceName(r.sourceType);
    if r.sourceType != "0" {
      assert s[12..] == "CNU";
    }
  }

  /** A line that starts with `-`, a space or a capital letter. */
  predicate Leads(l: string) {
    |l| > 0 && (l[0] == '-' || l[0] == ' ' || 'A' <= l[0] <= 'Z')
  }

  lemma {:induction false} LabelLeads(tag: string, v: string)
    requires Leads(tag)
    ensures Leads(tag + v)
  {
    assert (tag + v)[0] == tag[0];
  }

  lemma {:induction false} HeadLeads(r: Record)
    ensures forall i :: 0 <= i < 14 ==> Leads(RenderHead(r)[i])
  {
    var h := RenderHead(r);
    FillStart(PortLabels, [r.mocaPort, r.mocaPortDev]);
    assert h[6][0] == 'M';
    LabelLeads("Timestamp:  ", r.timestamp);
    LabelLeads("Level:      ", r.traceLevel);
    LabelLeads("Module:     ", r.moduleName);
    LabelLeads("Function:   ", r.functionName);
    LabelLeads("Line:       ", r.sourceLine);
    LabelLeads("CNU ID:     ", r.cnuId);
    LabelLeads("CNU MAC:    ", r.cnuMac);
    LabelLeads("Source:     ", SourceName(r.sourceType));
    LabelLeads("Rx Good:    ", r.rxGood);
    LabelLeads("Rx Bad:     ", r.rxBad);
    LabelLeads("Rx % Bad:   ", r.rxBadPercent);
    assert Leads(h[0]) && Leads(h[1]) && Leads(h[2]) && Leads(h[3]) && Leads(h[4]);
    assert Leads(h[5]) && Leads(h[6]) && Leads(h[7]) && Leads(h[8]) && Leads(h[9]);
    assert Leads(h[10]) && Leads(h[11]) && Leads(h[12]) && Leads(h[13]);
  }

  /** Every line of a block is non-empty and starts with `-`, a space or a capital letter. */
  lemma {:induction false} RenderLinesLead(r: Record)
    ensures forall l :: l in Render(r) ==> Leads(l)
  {
    var lines := Render(r);
    var h := RenderHead(r);
    assert lines == h + ChannelLines(r.channels) + [Divider];
    HeadLeads(r);
    forall l | l in lines ensures Leads(l) {
      var i :| 0 <= i < |lines| && lines[i] == l;
      if 14 <= i < 14 + |r.channels| {
        FillStart(ChannelLabels, ChannelValues(r.channels[i - 14]));
        assert l[0] == ' ';
      } else if i < 14 {
        assert l == h[i];
      }
    }
  }
}
