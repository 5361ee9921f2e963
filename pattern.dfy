/**
 * A regular pattern of the restricted shape both patterns of parser.py have: a
 * sequence of atoms (fixed literals, greedy runs of one character class, and the
 * signed number `-?\d+`), where every run is followed by something its class
 * excludes. For such a pattern greedy scanning never needs to backtrack, so the
 * scanner below finds exactly the match a backtracking engine finds, and the
 * match is the only way to split the text into pieces fitting the atoms.
 */
module Pattern {
  import opened Wrappers
  import opened Scan

  datatype Atom =
    | Lit(text: string)                   // a fixed piece of text
    | Run(cl: CharClass, nonEmpty: bool)  // `cl+` when nonEmpty, `cl*` otherwise
    | Signed                              // `-?\d+`

  /** The text `p` is something atom `a` can consume. */
  predicate FitsAtom(a: Atom, p: string) {
    match a
    case Lit(s) => p == s
    case Run(cl, nonEmpty) => AllIn(p, cl) && (nonEmpty ==> p != [])
    case Signed => IsSigned(p)
  }

  /** `-?\d+` */
  predicate IsSigned(s: string) {
    RunOf(s, Digit) || (|s| > 1 && s[0] == '-' && RunOf(s[1..], Digit))
  }

  /** `pieces` are texts fitting the atoms of `atoms`, one each, in order. */
  predicate Fits(atoms: seq<Atom>, pieces: seq<string>) {
    |pieces| == |atoms| && forall i :: 0 <= i < |atoms| ==> FitsAtom(atoms[i], pieces[i])
  }

  /** The pieces written one after the other. */
  function Concat(pieces: seq<string>): string
    decreases |pieces|
  {
    if pieces == [] then [] else pieces[0] + Concat(pieces[1..])
  }

  /** The atom ends in a greedy run, so what follows it must stop that run. */
  predicate Open(a: Atom) {
    a.Run? || a.Signed?
  }

  /** The class of the run an open atom ends with. */
  function RunClass(a: Atom): CharClass
    requires Open(a)
  {
    if a.Run? then a.cl else Digit
  }

  /** Every non-empty text fitting `b` starts with a character outside `cl`. */
  predicate Excludes(cl: CharClass, b: Atom) {
    match b
    case Lit(s) => s != [] && !cl.Has(s[0])
    case Run(cl2, _) => forall c :: cl2.Has(c) ==> !cl.Has(c)
    case Signed => !cl.Has('-') && forall c :: IsDigit(c) ==> !cl.Has(c)
  }

  /** `cl*`: the one kind of atom that can consume nothing (the patterns have no empty literal). */
  predicate Optional(a: Atom) {
    a.Run? && !a.nonEmpty
  }

  /**
   * Every open atom is followed by an atom its class excludes; when that one can be
   * empty, also by a second one that cannot be empty and is excluded too.
   */
  predicate Separated(atoms: seq<Atom>) {
    forall i :: 0 <= i < |atoms| && Open(atoms[i]) ==> SeparatedAt(atoms, i)
  }

  predicate SeparatedAt(atoms: seq<Atom>, i: nat)
    requires i < |atoms| && Open(atoms[i])
  {
    var cl := RunClass(atoms[i]);
    i + 1 < |atoms| && Excludes(cl, atoms[i + 1])
    && (Optional(atoms[i + 1]) ==>
          i + 2 < |atoms| && Excludes(cl, atoms[i + 2]) && !Optional(atoms[i + 2]))
  }

  /** What a run ending in atom `a` needs of the text after it. */
  predicate Stops(a: Atom, u: string) {
    Open(a) ==> Halts(u, RunClass(a))
  }

  /** `-?` followed by `\d+`: the optional sign is taken only when digits follow it. */
  function ScanSigned(t: string): (r: Option<Cut<string>>)
    ensures r.Some? ==> IsSigned(r.value.value) && Halts(r.value.rest, Digit)
    ensures r.Some? ==> t == r.value.value + r.value.rest
  {
    if "-" <= t then
      var digits :- Plus(t[1..], Digit);
      Negative(t, digits.value, digits.rest);
      Some(Cut("-" + digits.value, digits.rest))
    else
      Plus(t, Digit)
  }

  /** A minus sign followed by digits is a signed number. */
  lemma {:induction false} Negative(t: string, d: string, rest: string)
    requires "-" <= t && RunOf(d, Digit) && t[1..] == d + rest
    ensures IsSigned("-" + d) && t == ("-" + d) + rest
  {
    assert ("-" + d)[1..] == d;
    assert t == "-" + t[1..];
  }

  /** One atom matched at the start of `t`. */
  function Step(a: Atom, t: string): (r: Option<Cut<string>>)
    ensures r.Some? ==> FitsAtom(a, r.value.value) && Stops(a, r.value.rest)
    ensures r.Some? ==> t == r.value.value + r.value.rest
  {
    match a
    case Lit(s) =>
      var after :- Literal(t, s);
      Some(Cut(s, after))
    case Run(cl, nonEmpty) =>
      if nonEmpty then Plus(t, cl) else Some(Star(t, cl))
    case Signed =>
      ScanSigned(t)
  }

  /**
   * The pattern matched at the start of `t` (Python's `pattern.match`): the text
   * each atom consumed, and the text after the match; `None` when it does not match.
   */
  function Match(atoms: seq<Atom>, t: string): (r: Option<Cut<seq<string>>>)
    ensures r.Some? ==> Fits(atoms, r.value.value) && t == Concat(r.value.value) + r.value.rest
    decreases |atoms|
  {
    if atoms == [] then Some(Cut([], t))
    else
      var first :- Step(atoms[0], t);
      var more :- Match(atoms[1..], first.rest);
      var pieces := [first.value] + more.value;
      assert pieces[1..] == more.value;
      assert t == Concat(pieces) + more.rest;
      Some(Cut(pieces, more.rest))
  }

  lemma {:induction false} SignedComplete(s: string, rest: string)
    requires IsSigned(s) && Halts(rest, Digit)
    ensures ScanSigned(s + rest) == Some(Cut(s, rest))
  {
    if s[0] == '-' {
      assert (s + rest)[1..] == s[1..] + rest;
      PlusOf(s[1..], rest, Digit);
      assert "-" + s[1..] == s;
    } else {
      PlusOf(s, rest, Digit);
    }
  }

  lemma {:induction false} StepComplete(a: Atom, p: string, u: string)
    requires FitsAtom(a, p) && Stops(a, u)
    ensures Step(a, p + u) == Some(Cut(p, u))
  {
    match a
    case Lit(s) => LiteralOf(s, u);
    case Run(cl, nonEmpty) => StarOf(p, u, cl);
    case Signed => SignedComplete(p, u);
  }

  /** The first character of a non-empty text fitting an excluded atom is outside the class. */
  lemma {:induction false} ExcludedStart(cl: CharClass, b: Atom, p: string)
    requires Excludes(cl, b) && FitsAtom(b, p) && p != []
    ensures !cl.Has(p[0])
  {
    if b.Signed? && p[0] != '-' {
      assert IsDigit(p[0]);
    }
  }

  /** Only an optional atom can consume nothing. */
  lemma {:induction false} EmptyFit(cl: CharClass, b: Atom)
    requires Excludes(cl, b) && FitsAtom(b, [])
    ensures Optional(b)
  {
  }

  lemma {:induction false} SeparatedTail(atoms: seq<Atom>)
    requires atoms != [] && Separated(atoms)
    ensures Separated(atoms[1..])
  {
    forall i | 0 <= i < |atoms[1..]| && Open(atoms[1..][i])
      ensures SeparatedAt(atoms[1..], i)
    {
      assert atoms[1..][i] == atoms[i + 1];
      assert SeparatedAt(atoms, i + 1);
    }
  }

  /** In a separated pattern the text after an open atom's piece stops its run. */
  lemma {:induction false} NextStops(atoms: seq<Atom>, pieces: seq<string>, rest: string)
    requires atoms != [] && Separated(atoms) && Fits(atoms, pieces)
    ensures Stops(atoms[0], Concat(pieces[1..]) + rest)
  {
    if Open(atoms[0]) {
      assert SeparatedAt(atoms, 0);
      var cl := RunClass(atoms[0]);
      var u := Concat(pieces[1..]) + rest;
      assert Concat(pieces[1..]) == pieces[1] + Concat(pieces[2..]);
      assert FitsAtom(atoms[1], pieces[1]);
      if pieces[1] != [] {
        ExcludedStart(cl, atoms[1], pieces[1]);
        assert u[0] == pieces[1][0];
      } else {
        EmptyFit(cl, atoms[1]);
        assert FitsAtom(atoms[2], pieces[2]);
        assert pieces[2] != [];
        ExcludedStart(cl, atoms[2], pieces[2]);
        assert pieces[2..][1..] == pieces[3..];
        assert Concat(pieces[2..]) == pieces[2] + Concat(pieces[3..]);
        assert u == pieces[2] + (Concat(pieces[3..]) + rest);
      }
    }
  }

  /**
   * Completeness: text made of pieces that fit a separated pattern is matched,
   * and the match gives back exactly those pieces and the text after them.
   */
  lemma {:induction false} MatchComplete(atoms: seq<Atom>, pieces: seq<string>, rest: string)
    requires Separated(atoms) && Fits(atoms, pieces)
    ensures Match(atoms, Concat(pieces) + rest) == Some(Cut(pieces, rest))
    decreases |atoms|
  {
    if atoms != [] {
      var u := Concat(pieces[1..]) + rest;
      assert Concat(pieces) + rest == pieces[0] + u;
      NextStops(atoms, pieces, rest);
      StepComplete(atoms[0], pieces[0], u);
      SeparatedTail(atoms);
      assert Fits(atoms[1..], pieces[1..]) by {
        forall i | 0 <= i < |atoms[1..]| ensures FitsAtom(atoms[1..][i], pieces[1..][i]) {
          assert FitsAtom(atoms[i + 1], pieces[i + 1]);
        }
      }
      MatchComplete(atoms[1..], pieces[1..], rest);
      var t := Concat(pieces) + rest;
      assert Step(atoms[0], t) == Some(Cut(pieces[0], u));
      assert Match(atoms[1..], u) == Some(Cut(pieces[1..], rest));
      assert [pieces[0]] + pieces[1..] == pieces;
    } else {
      assert Concat(pieces) + rest == rest;
    }
  }
}
