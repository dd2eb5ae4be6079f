/**
  Conflicted files as git writes them, letter by letter: what parsing makes of them, and what choosing
  a side leaves.
*/
module ConflictFiles {
  import opened Basics
  import opened ConflictMarkers
  import opened ConflictRoundTrip

  /** A piece of a file: text, or a conflict whose markers carry any label and line ending. The base,
      if shown, is the rest of its marker line and its lines. */
  datatype Piece =
    | PlainText(lines: seq<string>)
    | Conflict(open: string, ours: seq<string>, base: Option<(string, seq<string>)>,
               ending: string, theirs: seq<string>, close: string)

  function BaseLines(base: Option<(string, seq<string>)>): seq<string> {
    match base
    case None => []
    case Some((mark, lines)) => ["|||||||" + mark] + lines
  }

  function PieceLines(p: Piece): seq<string> {
    match p
    case PlainText(lines) => lines
    case Conflict(open, ours, base, ending, theirs, close) =>
      ["<<<<<<<" + open] + ours + BaseLines(base) + ["=======" + ending] + theirs + [">>>>>>>" + close]
  }

  function FileLines(ps: seq<Piece>): seq<string> {
    if ps == [] then [] else PieceLines(ps[0]) + FileLines(ps[1..])
  }

  function SegmentOf(p: Piece): Segment {
    match p
    case PlainText(lines) => Text(lines)
    case Conflict(_, ours, None, _, theirs, _) => Region(ours, [], theirs, false)
    case Conflict(_, ours, Some((_, base)), _, theirs, _) => Region(ours, base, theirs, true)
  }

  function SegmentsOf(ps: seq<Piece>): seq<Segment> {
    seq(|ps|, i requires 0 <= i < |ps| => SegmentOf(ps[i]))
  }

  /** Lines that end no side: no separator, no end of the region, and before the separator no base. */
  predicate Inside(ls: seq<string>, beforeSeparator: bool) {
    forall i :: 0 <= i < |ls| ==>
      "<<<<<<<" <= ls[i] ||
      (!IsSeparator(ls[i]) && !(">>>>>>>" <= ls[i]) && (beforeSeparator ==> !("|||||||" <= ls[i])))
  }

  predicate Outside(ls: seq<string>) {
    forall i :: 0 <= i < |ls| ==> !("<<<<<<<" <= ls[i])
  }

  predicate Printable(p: Piece) {
    match p
    case PlainText(lines) => lines != [] && Outside(lines)
    case Conflict(_, ours, base, ending, theirs, _) =>
      && Inside(ours, true) && (base.Some? ==> Inside(base.value.1, true)) && Inside(theirs, false)
      && ending in {"", "\n", "\r\n"}
  }

  /** Every piece can stand there, and no text is next to text. */
  predicate AllPrintable(ps: seq<Piece>) {
    && (forall i :: 0 <= i < |ps| ==> Printable(ps[i]))
    && (forall i :: 0 <= i < |ps| - 1 ==> ps[i].Conflict? || ps[i + 1].Conflict?)
  }

  // ----- the same with marks -----

  function MarkedOf(p: Piece): Marked {
    match p
    case PlainText(lines) => MarkedText(lines)
    case Conflict(open, ours, base, ending, theirs, close) =>
      MarkedRegion("<<<<<<<" + open, ours, if base.Some? then Some("|||||||" + base.value.0) else None,
                   if base.Some? then base.value.1 else [], "=======" + ending, theirs, ">>>>>>>" + close)
  }

  function MarkedFile(ps: seq<Piece>): seq<Marked> {
    if ps == [] then [] else [MarkedOf(ps[0])] + MarkedFile(ps[1..])
  }

  lemma RegionLines(a: seq<string>, b: seq<string>, c: seq<string>, d: seq<string>, e: seq<string>, f: seq<string>)
    ensures a + b + c + d + e + f == a + (b + (c + (d + (e + f))))
  {
    Associate(a + b + c + d, e, f);
    Associate(a + b + c, d, e + f);
    Associate(a + b, c, d + (e + f));
    Associate(a, b, c + (d + (e + f)));
  }

  lemma MarkedLines(p: Piece)
    ensures Lines(MarkedOf(p)) == PieceLines(p) && Erased(MarkedOf(p)) == SegmentOf(p)
  {
    if p.Conflict? {
      var m := MarkedOf(p);
      assert Middle(m) == BaseLines(p.base);
      RegionLines([m.open], m.ours, BaseLines(p.base), [m.separator], m.theirs, [m.close]);
    }
  }

  lemma InsideIsKept(side: Side, ls: seq<string>)
    requires Inside(ls, !side.InTheirs?)
    ensures AllKept(side, ls)
  {
    forall i | 0 <= i < |ls|
      ensures Keeps(side, ls[i])
    {
      MarkOfLine(ls[i]);
    }
  }

  lemma OutsideIsNotOpen(ls: seq<string>)
    requires Outside(ls)
    ensures forall i :: 0 <= i < |ls| ==> !MarkOf(ls[i]).Open?
  {
    forall i | 0 <= i < |ls|
      ensures !MarkOf(ls[i]).Open?
    {
      MarkOfLine(ls[i]);
    }
  }

  lemma SeparatorLine(ending: string)
    requires ending in {"", "\n", "\r\n"}
    ensures MarkOf("=======" + ending) == Separator
  {
    assert "=======" + "" == "=======" && "=======" + "\n" == "=======\n" && "=======" + "\r\n" == "=======\r\n";
    SeparatorHasMark("=======" + ending);
  }

  lemma PrintableFits(p: Piece)
    requires Printable(p)
    ensures Fits(MarkedOf(p))
  {
    match p
    case PlainText(lines) => OutsideIsNotOpen(lines);
    case Conflict(open, ours, base, ending, theirs, close) =>
      OpenByLetters(open);
      CloseByLetters(close);
      SeparatorLine(ending);
      InsideIsKept(InOurs, ours);
      InsideIsKept(InTheirs, theirs);
      if base.Some? {
        BaseByLetters(base.value.0);
        InsideIsKept(InBase, base.value.1);
      }
  }

  lemma {:induction false} MarkedFileIs(ps: seq<Piece>)
    ensures |MarkedFile(ps)| == |ps| && forall i :: 0 <= i < |ps| ==> MarkedFile(ps)[i] == MarkedOf(ps[i])
    ensures RenderLines(MarkedFile(ps)) == FileLines(ps) && EraseAll(MarkedFile(ps)) == SegmentsOf(ps)
    decreases |ps|
  {
    if ps != [] {
      MarkedFileIs(ps[1..]);
      MarkedLines(ps[0]);
      assert MarkedFile(ps)[1..] == MarkedFile(ps[1..]);
      assert SegmentsOf(ps) == [SegmentOf(ps[0])] + SegmentsOf(ps[1..]);
    }
  }

  lemma MarkedFileIsNormalised(ps: seq<Piece>)
    requires AllPrintable(ps)
    ensures Normalised(MarkedFile(ps))
  {
    MarkedFileIs(ps);
    forall i | 0 <= i < |ps|
      ensures Fits(MarkedFile(ps)[i])
    {
      PrintableFits(ps[i]);
    }
  }

  // ----- parsing and choosing -----

  /** Parsing a file finds its pieces: for every list of texts and conflicts, with any labels, with or
      without base, with any line endings, with or without a final newline. */
  lemma ParseFindsThePieces(ps: seq<Piece>)
    requires AllPrintable(ps) && AreLines(FileLines(ps))
    ensures Parse(Join(FileLines(ps))) == Parsed(SegmentsOf(ps), Regions(SegmentsOf(ps)), true)
  {
    MarkedFileIs(ps);
    MarkedFileIsNormalised(ps);
    ParseInvertsRendering(MarkedFile(ps));
  }

  lemma OneRegion(before: seq<string>, r: Segment, after: seq<string>, c: Choice)
    requires r.Region? && !c.Unresolved?
    ensures Regions([Text(before), r, Text(after)]) == 1
    ensures Output([Text(before), r, Text(after)], [c]) == before + Chosen(r, c) + after
  {
    var segs := [Text(before), r, Text(after)];
    assert segs[1..] == [r, Text(after)] && [r, Text(after)][1..] == [Text(after)] && [Text(after)][1..] == [];
    OutputOfText(after);
    assert Regions([r, Text(after)]) == 1;
    assert [c][1..] == [];
    assert Output([r, Text(after)], [c]) == Chosen(r, c) + Output([Text(after)], []);
    Associate(before, Chosen(r, c), after);
  }

  lemma AssembledFor(before: seq<string>, r: Segment, after: seq<string>, c: Choice)
    requires r.Region?
    ensures Regions([Text(before), r, Text(after)]) == 1
    ensures var parsed := Parsed([Text(before), r, Text(after)], 1, true);
      Assemble(parsed, [c]) == if c.Unresolved? then None else Some(Join(before + Chosen(r, c) + after))
  {
    OneRegion(before, r, after, if c.Unresolved? then Ours else c);
    assert [c][0] == c;
    assert Resolved([c]) <==> !c.Unresolved?;
  }

  /** What a file of a text, a conflict and a text parses to. */
  function ThreeSegments(before: seq<string>, p: Piece, after: seq<string>): Parsed {
    Parsed([Text(before), SegmentOf(p), Text(after)], 1, true)
  }

  lemma ParseThree(before: seq<string>, p: Piece, after: seq<string>)
    requires p.Conflict?
    requires var ps := [PlainText(before), p, PlainText(after)]; AllPrintable(ps) && AreLines(FileLines(ps))
    ensures Parse(Join(FileLines([PlainText(before), p, PlainText(after)]))) == ThreeSegments(before, p, after)
  {
    var ps := [PlainText(before), p, PlainText(after)];
    ParseFindsThePieces(ps);
    assert SegmentsOf(ps) == [Text(before), SegmentOf(p), Text(after)];
    OneRegion(before, SegmentOf(p), after, Ours);
  }

  /** Choosing for one conflict leaves the text around it and the chosen lines, and nothing of the
      markers or the base. */
  lemma ChoosingASide(before: seq<string>, p: Piece, after: seq<string>, mine: seq<string>)
    requires p.Conflict?
    ensures var parsed := ThreeSegments(before, p, after);
      && parsed.regionCount == Regions(parsed.segments)
      && Assemble(parsed, [Ours]) == Some(Join(before + p.ours + after))
      && Assemble(parsed, [Theirs]) == Some(Join(before + p.theirs + after))
      && Assemble(parsed, [Custom(mine)]) == Some(Join(before + mine + after))
      && Assemble(parsed, [Unresolved]) == None && Assemble(parsed, []) == None
  {
    AssembledFor(before, SegmentOf(p), after, Ours);
    AssembledFor(before, SegmentOf(p), after, Theirs);
    AssembledFor(before, SegmentOf(p), after, Custom(mine));
    AssembledFor(before, SegmentOf(p), after, Unresolved);
  }

  // ----- one line each -----

  predicate TextLine(l: string) {
    Ended(l) && MarkOf(l).Plain?
  }

  /** A conflict of one line on each side, between two lines of text. */
  function ByLines(a: string, o: string, x: string, m: string, z: string, s: string, y: string, c: string, b: string):
    seq<Marked>
  {
    [MarkedText([a]), MarkedRegion(o, [x], Some(m), [z], s, [y], c), MarkedText([b])]
  }

  predicate Markers(o: string, m: string, s: string, c: string) {
    MarkOf(o).Open? && MarkOf(m).BaseMark? && MarkOf(s).Separator? && MarkOf(c).Close?
  }

  lemma OneLineIsKept(side: Side, l: string)
    requires TextLine(l)
    ensures AllKept(side, [l]) && Fits(MarkedText([l]))
  {
  }

  lemma NormalisedThree(p: Marked, q: Marked, r: Marked)
    requires Fits(p) && Fits(q) && Fits(r) && q.MarkedRegion?
    ensures Normalised([p, q, r])
  {
    var ms := [p, q, r];
    assert ms[0] == p && ms[1] == q && ms[2] == r;
    forall i | 0 <= i < |ms|
      ensures Fits(ms[i])
    {
      assert i == 0 || i == 1 || i == 2;
    }
    forall i | 0 <= i < |ms| - 1
      ensures ms[i].MarkedRegion? || ms[i + 1].MarkedRegion?
    {
      assert i == 0 || i == 1;
    }
  }

  lemma ByLinesIsNormalised(
    a: string, o: string, x: string, m: string, z: string, s: string, y: string, c: string, b: string)
    requires TextLine(a) && TextLine(x) && TextLine(z) && TextLine(y) && TextLine(b) && Markers(o, m, s, c)
    ensures Normalised(ByLines(a, o, x, m, z, s, y, c, b))
  {
    OneLineIsKept(InOurs, a);
    OneLineIsKept(InOurs, x);
    OneLineIsKept(InBase, z);
    OneLineIsKept(InTheirs, y);
    OneLineIsKept(InOurs, b);
    NormalisedThree(MarkedText([a]), MarkedRegion(o, [x], Some(m), [z], s, [y], c), MarkedText([b]));
  }

  lemma ByLinesIsRendered(
    a: string, o: string, x: string, m: string, z: string, s: string, y: string, c: string, b: string)
    ensures RenderLines(ByLines(a, o, x, m, z, s, y, c, b)) == [a, o, x, m, z, s, y, c, b]
  {
    var r := MarkedRegion(o, [x], Some(m), [z], s, [y], c);
    var ms := ByLines(a, o, x, m, z, s, y, c, b);
    assert ms[1..] == [r, MarkedText([b])] && [r, MarkedText([b])][1..] == [MarkedText([b])];
    assert [MarkedText([b])][1..] == [];
    assert RenderLines([MarkedText([b])]) == [b];
    assert Lines(r) == [o, x, m, z, s, y, c];
    assert RenderLines([r, MarkedText([b])]) == [o, x, m, z, s, y, c, b];
  }

  lemma EraseThree(p: Marked, q: Marked, r: Marked)
    ensures EraseAll([p, q, r]) == [Erased(p), Erased(q), Erased(r)]
  {
    assert [p, q, r][1..] == [q, r] && [q, r][1..] == [r] && [r][1..] == [];
    assert EraseAll([r]) == [Erased(r)];
    assert EraseAll([q, r]) == [Erased(q), Erased(r)];
  }

  /** A file of nine lines with every kind of marker: what each side holds. */
  lemma RegionByLines(
    a: string, o: string, x: string, m: string, z: string, s: string, y: string, c: string, b: string)
    requires TextLine(a) && TextLine(x) && TextLine(z) && TextLine(y) && TextLine(b) && Markers(o, m, s, c)
    requires AreLines([a, o, x, m, z, s, y, c, b])
    ensures Parse(Join([a, o, x, m, z, s, y, c, b])) ==
      Parsed([Text([a]), Region([x], [z], [y], true), Text([b])], 1, true)
  {
    var ms := ByLines(a, o, x, m, z, s, y, c, b);
    ByLinesIsNormalised(a, o, x, m, z, s, y, c, b);
    ByLinesIsRendered(a, o, x, m, z, s, y, c, b);
    ParseInvertsRendering(ms);
    EraseThree(ms[0], ms[1], ms[2]);
    OneRegion([a], Region([x], [z], [y], true), [b], Ours);
  }

  /** And what choosing leaves of it. */
  lemma ChoiceByLines(a: string, x: string, z: string, y: string, b: string)
    ensures var parsed := Parsed([Text([a]), Region([x], [z], [y], true), Text([b])], 1, true);
      && Regions(parsed.segments) == 1
      && Assemble(parsed, [Ours]) == Some(a + x + b) && Assemble(parsed, [Theirs]) == Some(a + y + b)
  {
    AssembledFor([a], Region([x], [z], [y], true), [b], Ours);
    AssembledFor([a], Region([x], [z], [y], true), [b], Theirs);
    JoinThree(a, x, b);
    JoinThree(a, y, b);
  }

  lemma JoinThree(a: string, b: string, c: string)
    ensures Join([a] + [b] + [c]) == a + b + c
  {
    assert [a] + [b] + [c] == [a, b, c] && [a, b, c][1..] == [b, c] && [b, c][1..] == [c] && [c][1..] == [];
    assert Join([c]) == c + [] == c;
    Associate(a, b, c);
  }
}
