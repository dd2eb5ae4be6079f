/** Assembling a parsed conflict file, and what parsing and assembling undo. */
module ConflictRoundTrip {
  import opened Basics
  import opened ConflictMarkers

  // ----- assembling -----

  datatype Choice = Unresolved | Ours | Theirs | Custom(lines: seq<string>)

  function Chosen(r: Segment, c: Choice): seq<string>
    requires r.Region? && !c.Unresolved?
  {
    match c
    case Ours => r.ours
    case Theirs => r.theirs
    case Custom(lines) => lines
  }

  predicate Resolved(cs: seq<Choice>) {
    forall i :: 0 <= i < |cs| ==> !cs[i].Unresolved?
  }

  /** The lines of the assembled file, segment by segment. */
  function Output(segs: seq<Segment>, cs: seq<Choice>): seq<string>
    requires |cs| == Regions(segs) && Resolved(cs)
    decreases |segs|
  {
    if segs == [] then []
    else if segs[0].Text? then segs[0].lines + Output(segs[1..], cs)
    else Chosen(segs[0], cs[0]) + Output(segs[1..], cs[1..])
  }

  function Assemble(p: Parsed, cs: seq<Choice>): Option<string>
    requires p.regionCount == Regions(p.segments)
  {
    if |cs| != p.regionCount || !Resolved(cs) then None else Some(Join(Output(p.segments, cs)))
  }

  method AppendLines(output: string, lines: seq<string>) returns (longer: string)
    ensures longer == output + Join(lines)
  {
    longer := output;
    for i := 0 to |lines|
      invariant longer == output + Join(lines[..i])
    {
      assert lines[..i + 1] == lines[..i] + [lines[i]];
      JoinAppend(lines[..i], [lines[i]]);
      assert [lines[i]][1..] == [];
      Associate(output, Join(lines[..i]), lines[i]);
      longer := longer + lines[i];
    }
    assert lines[..|lines|] == lines;
  }

  method AssembleFile(p: Parsed, cs: seq<Choice>) returns (content: Option<string>)
    requires p.regionCount == Regions(p.segments)
    ensures content == Assemble(p, cs)
  {
    if |cs| != p.regionCount {
      return None;
    }
    for i := 0 to |cs|
      invariant Resolved(cs[..i])
    {
      if cs[i].Unresolved? {
        return None;
      }
    }
    assert cs[..|cs|] == cs;
    var segs := p.segments;
    var out: string := [];
    var k := 0;
    assert segs[0..] == segs && cs[0..] == cs;
    for i := 0 to |segs|
      invariant k <= |cs| && |cs[k..]| == Regions(segs[i..])
      invariant out + Join(Output(segs[i..], cs[k..])) == Join(Output(segs, cs))
    {
      assert segs[i..][1..] == segs[i + 1..];
      var lines := if segs[i].Text? then segs[i].lines else Chosen(segs[i], cs[k]);
      var next := if segs[i].Text? then k else k + 1;
      assert segs[i].Region? ==> cs[k..][1..] == cs[k + 1..];
      JoinAppend(lines, Output(segs[i + 1..], cs[next..]));
      Associate(out, Join(lines), Join(Output(segs[i + 1..], cs[next..])));
      out := AppendLines(out, lines);
      k := next;
    }
    assert segs[|segs|..] == [];
    assert out + [] == out;
    return Some(out);
  }

  // ----- files without regions -----

  lemma {:induction false} NoRegionMeansText(lines: seq<string>, pending: seq<string>)
    requires Segments(lines, pending).Some? && Regions(Segments(lines, pending).value) == 0
    ensures Segments(lines, pending).value == Flush(pending + lines)
    decreases |lines|
  {
    if lines == [] {
      assert pending + lines == pending;
    } else if MarkOf(lines[0]).Open? {
      var c := Collect(lines[1..], InOurs, NOTHING);
      var first, rest := Flush(pending) + [c.value.0], Segments(c.value.1, []);
      RegionsAppend(first, rest.value);
      RegionsOfFlush(pending, c.value.0);
      assert false;
    } else {
      NoRegionMeansText(lines[1..], pending + [lines[0]]);
      assert pending + [lines[0]] + lines[1..] == pending + lines;
    }
  }

  /** A file in which no region was found, malformed ones included, assembles to itself. */
  lemma RegionlessFileIsUnchanged(content: string)
    requires Parse(content).regionCount == 0
    ensures Assemble(Parse(content), []) == Some(content)
  {
    var lines := Split(content);
    JoinSplit(content);
    var segs := Segments(lines, []);
    if segs.Some? {
      NoRegionMeansText(lines, []);
      assert [] + lines == lines;
    }
    OutputOfText(lines);
  }

  lemma OutputOfText(lines: seq<string>)
    ensures Regions([Text(lines)]) == 0 && Output([Text(lines)], []) == lines
    ensures Regions(Flush(lines)) == 0 && Output(Flush(lines), []) == lines
  {
    assert [Text(lines)][1..] == [];
    assert lines + [] == lines;
  }

  // ----- parsing undoes marker rendering -----

  /** A segment as it stands in a conflicted file, with its marker lines. */
  datatype Marked =
    | MarkedText(lines: seq<string>)
    | MarkedRegion(
        open: string, ours: seq<string>, baseMark: Option<string>, base: seq<string>,
        separator: string, theirs: seq<string>, close: string)

  function Middle(m: Marked): seq<string>
    requires m.MarkedRegion?
  {
    if m.baseMark.Some? then [m.baseMark.value] + m.base else []
  }

  function Lines(m: Marked): seq<string> {
    if m.MarkedText? then m.lines
    else [m.open] + (m.ours + (Middle(m) + ([m.separator] + (m.theirs + [m.close]))))
  }

  function Erased(m: Marked): Segment {
    if m.MarkedText? then Text(m.lines) else Region(m.ours, m.base, m.theirs, m.baseMark.Some?)
  }

  /** A line that stays a line of the side it stands on. */
  predicate Keeps(side: Side, l: string) {
    MarkOf(l).Plain? || MarkOf(l).Open? || (side.InTheirs? && MarkOf(l).BaseMark?)
  }

  predicate AllKept(side: Side, ls: seq<string>) {
    forall i :: 0 <= i < |ls| ==> Keeps(side, ls[i])
  }

  predicate Fits(m: Marked) {
    match m
    case MarkedText(lines) => lines != [] && forall i :: 0 <= i < |lines| ==> !MarkOf(lines[i]).Open?
    case MarkedRegion(open, ours, baseMark, base, separator, theirs, close) =>
      && MarkOf(open).Open? && AllKept(InOurs, ours)
      && (if baseMark.Some? then MarkOf(baseMark.value).BaseMark? && AllKept(InBase, base) else base == [])
      && MarkOf(separator).Separator? && AllKept(InTheirs, theirs) && MarkOf(close).Close?
  }

  /** No text next to text. */
  predicate Normalised(ms: seq<Marked>) {
    && (forall i :: 0 <= i < |ms| ==> Fits(ms[i]))
    && (forall i :: 0 <= i < |ms| - 1 ==> ms[i].MarkedRegion? || ms[i + 1].MarkedRegion?)
  }

  function RenderLines(ms: seq<Marked>): seq<string> {
    if ms == [] then [] else Lines(ms[0]) + RenderLines(ms[1..])
  }

  function EraseAll(ms: seq<Marked>): seq<Segment> {
    if ms == [] then [] else [Erased(ms[0])] + EraseAll(ms[1..])
  }

  function PushAll(r: Segment, side: Side, ls: seq<string>): Segment
    requires r.Region?
  {
    match side
    case InOurs => r.(ours := r.ours + ls)
    case InBase => r.(base := r.base + ls)
    case InTheirs => r.(theirs := r.theirs + ls)
  }

  lemma CollectKept(l: string, tail: seq<string>, side: Side, r: Segment)
    requires r.Region? && Keeps(side, l)
    ensures Collect([l] + tail, side, r) == Collect(tail, side, Push(r, side, l))
  {
    assert ([l] + tail)[1..] == tail;
  }

  lemma PushFirst(r: Segment, side: Side, l: string, ls: seq<string>)
    requires r.Region?
    ensures PushAll(Push(r, side, l), side, ls) == PushAll(r, side, [l] + ls)
  {
    match side
    case InOurs => Associate(r.ours, [l], ls);
    case InBase => Associate(r.base, [l], ls);
    case InTheirs => Associate(r.theirs, [l], ls);
  }

  lemma {:induction false} CollectRun(ls: seq<string>, tail: seq<string>, side: Side, r: Segment)
    requires r.Region? && AllKept(side, ls)
    ensures Collect(ls + tail, side, r) == Collect(tail, side, PushAll(r, side, ls))
    decreases |ls|
  {
    if ls == [] {
      assert ls + tail == tail;
      assert PushAll(r, side, ls) == r;
    } else {
      var l, rest := ls[0], ls[1..];
      assert ls == [l] + rest;
      Associate([l], rest, tail);
      CollectKept(l, rest + tail, side, r);
      CollectRun(rest, tail, side, Push(r, side, l));
      PushFirst(r, side, l, rest);
    }
  }

  lemma CollectMark(l: string, tail: seq<string>, side: Side, r: Segment)
    requires r.Region?
    ensures MarkOf(l).Close? && side.InTheirs? ==> Collect([l] + tail, side, r) == Some((r, tail))
    ensures MarkOf(l).Separator? ==> Collect([l] + tail, side, r) == Collect(tail, InTheirs, r)
    ensures MarkOf(l).BaseMark? && !side.InTheirs? ==>
      Collect([l] + tail, side, r) == Collect(tail, InBase, r.(hasBase := true))
  {
    assert ([l] + tail)[1..] == tail;
  }

  lemma CollectTheirs(m: Marked, tail: seq<string>, side: Side, r: Segment)
    requires m.MarkedRegion? && Fits(m) && r.Region? && r.theirs == [] && !side.InTheirs?
    ensures Collect([m.separator] + (m.theirs + ([m.close] + tail)), side, r) == Some((r.(theirs := m.theirs), tail))
  {
    CollectMark(m.separator, m.theirs + ([m.close] + tail), side, r);
    CollectRun(m.theirs, [m.close] + tail, InTheirs, r);
    assert PushAll(r, InTheirs, m.theirs) == r.(theirs := m.theirs);
    CollectMark(m.close, tail, InTheirs, r.(theirs := m.theirs));
  }

  lemma CollectBase(mark: string, base: seq<string>, rest: seq<string>, r: Segment)
    requires r.Region? && r.base == [] && MarkOf(mark).BaseMark? && AllKept(InBase, base)
    ensures Collect([mark] + (base + rest), InOurs, r) == Collect(rest, InBase, r.(base := base, hasBase := true))
  {
    CollectMark(mark, base + rest, InOurs, r);
    CollectRun(base, rest, InBase, r.(hasBase := true));
    assert [] + base == base;
  }

  lemma CollectMiddle(m: Marked, rest: seq<string>, r: Segment) returns (side: Side)
    requires m.MarkedRegion? && Fits(m) && r.Region? && r.base == [] && !r.hasBase
    ensures !side.InTheirs?
    ensures Collect(Middle(m) + rest, InOurs, r) ==
            Collect(rest, side, r.(base := m.base, hasBase := m.baseMark.Some?))
  {
    if m.baseMark.Some? {
      Associate([m.baseMark.value], m.base, rest);
      CollectBase(m.baseMark.value, m.base, rest, r);
      side := InBase;
    } else {
      assert [] + rest == rest;
      side := InOurs;
    }
  }

  /** What follows the lines of ours. */
  function AfterOurs(m: Marked, tail: seq<string>): seq<string>
    requires m.MarkedRegion?
  {
    Middle(m) + ([m.separator] + (m.theirs + ([m.close] + tail)))
  }

  lemma LinesFromOurs(m: Marked, tail: seq<string>)
    requires m.MarkedRegion?
    ensures Lines(m) + tail == [m.open] + (m.ours + AfterOurs(m, tail))
  {
    var theirs := m.theirs + [m.close];
    var middle := Middle(m) + ([m.separator] + theirs);
    Associate([m.open], m.ours + middle, tail);
    Associate(m.ours, middle, tail);
    Associate(Middle(m), [m.separator] + theirs, tail);
    Associate([m.separator], theirs, tail);
    Associate(m.theirs, [m.close], tail);
  }

  lemma CollectFromOurs(m: Marked, tail: seq<string>)
    requires m.MarkedRegion? && Fits(m)
    ensures Collect(m.ours + AfterOurs(m, tail), InOurs, NOTHING) == Some((Erased(m), tail))
  {
    CollectRun(m.ours, AfterOurs(m, tail), InOurs, NOTHING);
    assert [] + m.ours == m.ours;
    var withOurs := Region(m.ours, [], [], false);
    var side := CollectMiddle(m, [m.separator] + (m.theirs + ([m.close] + tail)), withOurs);
    CollectTheirs(m, tail, side, withOurs.(base := m.base, hasBase := m.baseMark.Some?));
  }

  lemma {:induction false} TextRun(ls: seq<string>, tail: seq<string>, pending: seq<string>)
    requires forall i :: 0 <= i < |ls| ==> !MarkOf(ls[i]).Open?
    ensures Segments(ls + tail, pending) == Segments(tail, pending + ls)
    decreases |ls|
  {
    if ls == [] {
      assert ls + tail == tail && pending + ls == pending;
    } else {
      assert (ls + tail)[1..] == ls[1..] + tail && (ls + tail)[0] == ls[0];
      TextRun(ls[1..], tail, pending + [ls[0]]);
      assert pending + [ls[0]] + ls[1..] == pending + ls;
    }
  }

  lemma SegmentsRegion(m: Marked, rest: seq<string>, pending: seq<string>)
    requires m.MarkedRegion? && Fits(m)
    ensures Segments(Lines(m) + rest, pending) == Glue(Flush(pending) + [Erased(m)], Segments(rest, []))
  {
    LinesFromOurs(m, rest);
    CollectFromOurs(m, rest);
    var after := m.ours + AfterOurs(m, rest);
    SegmentsOpen(m.open, after, pending);
  }

  lemma SegmentsOpen(l: string, after: seq<string>, pending: seq<string>)
    requires MarkOf(l).Open? && Collect(after, InOurs, NOTHING).Some?
    ensures var c := Collect(after, InOurs, NOTHING).value;
      Segments([l] + after, pending) == Glue(Flush(pending) + [c.0], Segments(c.1, []))
  {
    assert ([l] + after)[1..] == after;
  }

  lemma NormalisedRest(ms: seq<Marked>)
    requires Normalised(ms) && ms != []
    ensures Normalised(ms[1..]) && Fits(ms[0])
    ensures ms[0].MarkedText? && ms[1..] != [] ==> ms[1..][0].MarkedRegion?
  {
  }

  lemma TextSegment(lines: seq<string>, rest: seq<string>, more: seq<Segment>)
    requires Fits(MarkedText(lines)) && Segments(rest, lines) == Some(Flush(lines) + more)
    ensures Segments(lines + rest, []) == Some([Text(lines)] + more)
  {
    TextRun(lines, rest, []);
    assert [] + lines == lines;
  }

  lemma RegionSegment(m: Marked, rest: seq<string>, pending: seq<string>, more: seq<Segment>)
    requires m.MarkedRegion? && Fits(m) && Segments(rest, []) == Some([] + more)
    ensures Segments(Lines(m) + rest, pending) == Some(Flush(pending) + ([Erased(m)] + more))
  {
    SegmentsRegion(m, rest, pending);
    Associate(Flush(pending), [Erased(m)], more);
    assert [] + more == more;
  }

  lemma {:induction false} SegmentsOfRendered(ms: seq<Marked>, pending: seq<string>)
    requires Normalised(ms) && (pending == [] || ms == [] || ms[0].MarkedRegion?)
    ensures Segments(RenderLines(ms), pending) == Some(Flush(pending) + EraseAll(ms))
    decreases |ms|
  {
    if ms == [] {
      assert Flush(pending) + [] == Flush(pending);
    } else {
      var m := ms[0];
      NormalisedRest(ms);
      if m.MarkedText? {
        SegmentsOfRendered(ms[1..], m.lines);
        TextSegment(m.lines, RenderLines(ms[1..]), EraseAll(ms[1..]));
        assert [] + EraseAll(ms) == EraseAll(ms);
      } else {
        SegmentsOfRendered(ms[1..], []);
        RegionSegment(m, RenderLines(ms[1..]), pending, EraseAll(ms[1..]));
      }
    }
  }

  /** Parsing inverts marker rendering for every normalised list of segments: with or without a
      base, whatever line endings, with or without a final newline. */
  lemma ParseInvertsRendering(ms: seq<Marked>)
    requires Normalised(ms) && AreLines(RenderLines(ms))
    ensures Parse(Join(RenderLines(ms))) == Parsed(EraseAll(ms), Regions(EraseAll(ms)), true)
  {
    SplitJoin(RenderLines(ms));
    SegmentsOfRendered(ms, []);
    assert Flush([]) + EraseAll(ms) == EraseAll(ms);
  }

  /** The lines a reader of the conflicted file would pick. */
  function Picked(ms: seq<Marked>, cs: seq<Choice>): seq<string>
    requires |cs| == Regions(EraseAll(ms)) && Resolved(cs)
    decreases |ms|
  {
    if ms == [] then []
    else
      match ms[0]
      case MarkedText(lines) => lines + Picked(ms[1..], cs)
      case MarkedRegion(_, ours, _, _, _, theirs, _) =>
        var mine := match cs[0] case Ours => ours case Theirs => theirs case Custom(lines) => lines;
        mine + Picked(ms[1..], cs[1..])
  }

  lemma {:induction false} OutputIsPicked(ms: seq<Marked>, cs: seq<Choice>)
    requires |cs| == Regions(EraseAll(ms)) && Resolved(cs)
    ensures Output(EraseAll(ms), cs) == Picked(ms, cs)
    decreases |ms|
  {
    if ms != [] {
      assert EraseAll(ms)[1..] == EraseAll(ms[1..]);
      OutputIsPicked(ms[1..], if ms[0].MarkedText? then cs else cs[1..]);
    }
  }

  /** Parsing a rendered file and assembling it gives the text around the regions and, for each
      region in turn, the chosen side, without the marker lines; or nothing, exactly when there is
      not one decided choice per region. */
  lemma ResolvingARenderedFile(ms: seq<Marked>, cs: seq<Choice>)
    requires Normalised(ms) && AreLines(RenderLines(ms))
    ensures Assemble(Parse(Join(RenderLines(ms))), cs) ==
      if |cs| == Regions(EraseAll(ms)) && Resolved(cs) then Some(Join(Picked(ms, cs))) else None
  {
    ParseInvertsRendering(ms);
    if |cs| == Regions(EraseAll(ms)) && Resolved(cs) {
      OutputIsPicked(ms, cs);
    }
  }

  // ----- when an assembled file shows a marker -----

  predicate AllPlain(ls: seq<string>) {
    forall i :: 0 <= i < |ls| ==> MarkOf(ls[i]).Plain?
  }

  /** No line that assembling may emit for this segment is a marker. */
  predicate Clean(s: Segment) {
    if s.Text? then AllPlain(s.lines) else AllPlain(s.ours) && AllPlain(s.theirs)
  }

  predicate AllClean(segs: seq<Segment>) {
    forall i :: 0 <= i < |segs| ==> Clean(segs[i])
  }

  /** The markers come in order and every region ends: outside a region only an opening marker; in
      ours no second opening one; in theirs neither an opening nor a base one; a closing one only in
      theirs. What is dropped or kept in the base, which is never emitted, does not matter. */
  predicate Tidy(lines: seq<string>, at: Option<Side>)
    decreases |lines|
  {
    if lines == [] then at.None?
    else
      var rest := lines[1..];
      match (at, MarkOf(lines[0]))
      case (None, Plain) => Tidy(rest, None)
      case (None, Open) => Tidy(rest, Some(InOurs))
      case (None, _) => false
      case (Some(_), Plain) => Tidy(rest, at)
      case (Some(side), Open) => side.InBase? && Tidy(rest, at)
      case (Some(side), BaseMark) => !side.InTheirs? && Tidy(rest, Some(InBase))
      case (Some(_), Separator) => Tidy(rest, Some(InTheirs))
      case (Some(side), Close) => side.InTheirs? && Tidy(rest, None)
  }

  lemma {:induction false} CollectTidy(lines: seq<string>, side: Side, r: Segment)
    requires r.Region?
    ensures var res := Collect(lines, side, r);
      if res.None? then !Tidy(lines, Some(side))
      else Clean(res.value.0) && Tidy(res.value.1, None) <==> Clean(r) && Tidy(lines, Some(side))
    decreases |lines|
  {
    if lines != [] {
      var l, rest := lines[0], lines[1..];
      match MarkOf(l)
      case Close =>
      case Separator => CollectTidy(rest, InTheirs, r);
      case BaseMark =>
        if side.InTheirs? {
          PushClean(r, side, l);
          CollectTidy(rest, side, Push(r, side, l));
        } else {
          CollectTidy(rest, InBase, r.(hasBase := true));
        }
      case _ =>
        PushClean(r, side, l);
        CollectTidy(rest, side, Push(r, side, l));
    }
  }

  lemma PushClean(r: Segment, side: Side, l: string)
    requires r.Region?
    ensures Clean(Push(r, side, l)) <==> Clean(r) && (side.InBase? || MarkOf(l).Plain?)
  {
    if side.InOurs? {
      AllPlainPush(r.ours, l);
    } else if side.InTheirs? {
      AllPlainPush(r.theirs, l);
    }
  }

  lemma AllPlainPush(a: seq<string>, l: string)
    ensures AllPlain(a + [l]) <==> AllPlain(a) && MarkOf(l).Plain?
  {
    AllPlainAppend(a, [l]);
    assert [l][0] == l;
  }

  lemma AllPlainAppend(a: seq<string>, b: seq<string>)
    ensures AllPlain(a + b) <==> AllPlain(a) && AllPlain(b)
  {
    assert forall i :: 0 <= i < |a| ==> (a + b)[i] == a[i];
    assert forall i :: 0 <= i < |b| ==> (a + b)[|a| + i] == b[i];
  }

  lemma AllCleanAppend(a: seq<Segment>, b: seq<Segment>)
    ensures AllClean(a + b) <==> AllClean(a) && AllClean(b)
  {
    assert forall i :: 0 <= i < |a| ==> (a + b)[i] == a[i];
    assert forall i :: 0 <= i < |b| ==> (a + b)[|a| + i] == b[i];
  }

  lemma FlushClean(pending: seq<string>, r: Segment)
    ensures AllClean(Flush(pending)) <==> AllPlain(pending)
    ensures AllClean(Flush(pending) + [r]) <==> AllPlain(pending) && Clean(r)
  {
    AllCleanAppend(Flush(pending), [r]);
    assert [r][0] == r;
    assert pending != [] ==> Flush(pending)[0] == Text(pending);
  }

  lemma RegionTidy(lines: seq<string>, pending: seq<string>, r: Segment, more: seq<Segment>, rest: seq<string>)
    requires r.Region? && Collect(lines, InOurs, NOTHING) == Some((r, rest)) && (AllClean(more) <==> Tidy(rest, None))
    ensures AllClean(Flush(pending) + [r] + more) <==> AllPlain(pending) && Tidy(lines, Some(InOurs))
  {
    CollectTidy(lines, InOurs, NOTHING);
    AllCleanAppend(Flush(pending) + [r], more);
    FlushClean(pending, r);
  }

  lemma {:induction false} SegmentsTidy(lines: seq<string>, pending: seq<string>)
    ensures var segs := Segments(lines, pending);
      if segs.None? then !Tidy(lines, None)
      else AllClean(segs.value) <==> AllPlain(pending) && Tidy(lines, None)
    decreases |lines|
  {
    if lines == [] {
      FlushClean(pending, NOTHING);
    } else if MarkOf(lines[0]).Open? {
      var c := Collect(lines[1..], InOurs, NOTHING);
      CollectTidy(lines[1..], InOurs, NOTHING);
      if c.Some? {
        var (r, rest) := c.value;
        SegmentsTidy(rest, []);
        var more := Segments(rest, []);
        if more.Some? {
          RegionTidy(lines[1..], pending, r, more.value, rest);
        }
      }
    } else {
      SegmentsTidy(lines[1..], pending + [lines[0]]);
      AllPlainPush(pending, lines[0]);
    }
  }

  lemma {:induction false} PlainIsTidy(lines: seq<string>)
    requires AllPlain(lines)
    ensures Tidy(lines, None)
  {
    if lines != [] {
      assert MarkOf(lines[0]).Plain?;
      PlainIsTidy(lines[1..]);
    }
  }

  /** A file that is not well-formed has a marker line, and assembles to itself. */
  lemma MalformedFileIsEchoed(content: string)
    requires !Parse(content).wellFormed
    ensures Assemble(Parse(content), []) == Some(content) && !AllPlain(Split(content))
  {
    var lines := Split(content);
    SegmentsTidy(lines, []);
    if AllPlain(lines) {
      PlainIsTidy(lines);
    }
    OutputOfText(lines);
    RegionlessFileIsUnchanged(content);
  }

  lemma ParsedCleanIff(content: string)
    ensures AllClean(Parse(content).segments) <==> Tidy(Split(content), None)
  {
    var lines := Split(content);
    SegmentsTidy(lines, []);
    if Segments(lines, []).None? {
      MalformedFileIsEchoed(content);
      assert [Text(lines)][0] == Text(lines);
    }
  }

  // ----- the lines of an assembled file -----

  predicate Ended(l: string) {
    IsLine(l) && l[|l| - 1] == '\n'
  }

  predicate AllEnded(ls: seq<string>) {
    forall i :: 0 <= i < |ls| ==> Ended(ls[i])
  }

  lemma EndedThenLines(a: seq<string>, b: seq<string>)
    requires AllEnded(a) && AreLines(b)
    ensures AreLines(a + b)
  {
    forall i | 0 <= i < |a + b|
      ensures IsLine((a + b)[i]) && (i < |a + b| - 1 ==> Ended((a + b)[i]))
    {
      assert (a + b)[i] == if i < |a| then a[i] else b[i - |a|];
    }
  }

  lemma LinesSplit(a: seq<string>, b: seq<string>)
    requires AreLines(a + b) && b != []
    ensures AllEnded(a) && AreLines(b)
  {
    forall i | 0 <= i < |a|
      ensures Ended(a[i])
    {
      assert (a + b)[i] == a[i];
    }
    forall i | 0 <= i < |b|
      ensures IsLine(b[i]) && (i < |b| - 1 ==> Ended(b[i]))
    {
      assert (a + b)[|a| + i] == b[i];
    }
  }

  lemma {:induction false} SplitGivesLines(content: string)
    ensures AreLines(Split(content))
    decreases |content|
  {
    if content != [] {
      var end := LineEnd(content, 0);
      var line, rest := content[..end], content[end..];
      forall i | 0 <= i < end - 1
        ensures line[i] != '\n'
      {
        FindSkips(content, '\n', 0, i);
      }
      SplitGivesLines(rest);
      if rest == [] {
        assert Split(content) == [line];
      } else {
        assert AllEnded([line]);
        EndedThenLines([line], Split(rest));
      }
    }
  }

  /** What assembling may emit for a segment that is not the last text. */
  predicate SegmentEnded(s: Segment) {
    if s.Text? then AllEnded(s.lines) else AllEnded(s.ours) && AllEnded(s.theirs)
  }

  predicate Rejoins(segs: seq<Segment>) {
    || segs == []
    || (|segs| == 1 && segs[0].Text? && AreLines(segs[0].lines))
    || (SegmentEnded(segs[0]) && Rejoins(segs[1..]))
  }

  lemma AllEndedPush(a: seq<string>, l: string)
    requires AllEnded(a) && Ended(l)
    ensures AllEnded(a + [l])
  {
  }

  lemma {:induction false} CollectEnded(lines: seq<string>, side: Side, r: Segment)
    requires r.Region? && SegmentEnded(r) && AreLines(lines) && Collect(lines, side, r).Some?
    ensures SegmentEnded(Collect(lines, side, r).value.0) && AreLines(Collect(lines, side, r).value.1)
    decreases |lines|
  {
    var l, rest := lines[0], lines[1..];
    assert lines == [l] + rest;
    if rest != [] {
      LinesSplit([l], rest);
      assert Ended([l][0]);
      match MarkOf(l)
      case Close =>
      case Separator => CollectEnded(rest, InTheirs, r);
      case BaseMark =>
        if side.InTheirs? {
          AllEndedPush(r.theirs, l);
          CollectEnded(rest, side, Push(r, side, l));
        } else {
          CollectEnded(rest, InBase, r.(hasBase := true));
        }
      case _ =>
        PushEnded(r, side, l);
        CollectEnded(rest, side, Push(r, side, l));
    }
  }

  lemma PushEnded(r: Segment, side: Side, l: string)
    requires r.Region? && SegmentEnded(r) && Ended(l)
    ensures SegmentEnded(Push(r, side, l))
  {
    AllEndedPush(r.ours, l);
    AllEndedPush(r.theirs, l);
  }

  lemma RejoinsMore(pending: seq<string>, r: Segment, more: seq<Segment>)
    requires AllEnded(pending) && r.Region? && SegmentEnded(r) && Rejoins(more)
    ensures Rejoins(Flush(pending) + [r] + more)
  {
    var tail := [r] + more;
    assert tail[1..] == more && Rejoins(tail);
    var all := Flush(pending) + [r] + more;
    if pending == [] {
      assert all == tail;
    } else {
      assert all[0] == Text(pending) && all[1..] == tail;
    }
  }

  lemma {:induction false} SegmentsRejoin(lines: seq<string>, pending: seq<string>)
    requires AreLines(pending + lines) && Segments(lines, pending).Some?
    ensures Rejoins(Segments(lines, pending).value)
    decreases |lines|
  {
    if lines == [] {
      assert pending + lines == pending;
    } else if MarkOf(lines[0]).Open? {
      LinesSplit(pending, lines);
      assert lines == [lines[0]] + lines[1..];
      var (r, rest) := Collect(lines[1..], InOurs, NOTHING).value;
      LinesSplit([lines[0]], lines[1..]);
      CollectEnded(lines[1..], InOurs, NOTHING);
      assert [] + rest == rest;
      SegmentsRejoin(rest, []);
      RejoinsMore(pending, r, Segments(rest, []).value);
    } else {
      assert pending + [lines[0]] + lines[1..] == pending + lines;
      SegmentsRejoin(lines[1..], pending + [lines[0]]);
    }
  }

  lemma ParsedRejoins(content: string)
    ensures Rejoins(Parse(content).segments)
  {
    var lines := Split(content);
    SplitGivesLines(content);
    if Segments(lines, []).Some? {
      assert [] + lines == lines;
      SegmentsRejoin(lines, []);
    }
  }

  /** A side, or lines of the user's own that are whole and no markers. */
  predicate PlainChoice(c: Choice) {
    c.Ours? || c.Theirs? || (c.Custom? && AllPlain(c.lines) && AllEnded(c.lines))
  }

  predicate PlainChoices(cs: seq<Choice>) {
    forall i :: 0 <= i < |cs| ==> PlainChoice(cs[i])
  }

  lemma {:induction false} OutputRejoins(segs: seq<Segment>, cs: seq<Choice>)
    requires |cs| == Regions(segs) && PlainChoices(cs) && Rejoins(segs)
    ensures AreLines(Output(segs, cs))
    decreases |segs|
  {
    if segs != [] {
      if segs[0].Region? {
        assert PlainChoice(cs[0]);
        OutputRejoins(segs[1..], cs[1..]);
        EndedThenLines(Chosen(segs[0], cs[0]), Output(segs[1..], cs[1..]));
      } else if |segs| == 1 && AreLines(segs[0].lines) {
        assert segs[1..] == [] && segs[0].lines + [] == segs[0].lines;
      } else {
        OutputRejoins(segs[1..], cs);
        EndedThenLines(segs[0].lines, Output(segs[1..], cs));
      }
    }
  }

  lemma {:induction false} CleanOutput(segs: seq<Segment>, cs: seq<Choice>)
    requires |cs| == Regions(segs) && PlainChoices(cs) && AllClean(segs)
    ensures AllPlain(Output(segs, cs))
    decreases |segs|
  {
    if segs != [] {
      assert Clean(segs[0]);
      if segs[0].Text? {
        CleanOutput(segs[1..], cs);
        AllPlainAppend(segs[0].lines, Output(segs[1..], cs));
      } else {
        assert PlainChoice(cs[0]);
        CleanOutput(segs[1..], cs[1..]);
        AllPlainAppend(Chosen(segs[0], cs[0]), Output(segs[1..], cs[1..]));
      }
    }
  }

  lemma {:induction false} UncleanOutput(segs: seq<Segment>) returns (cs: seq<Choice>)
    ensures |cs| == Regions(segs) && PlainChoices(cs)
    ensures !AllClean(segs) ==> !AllPlain(Output(segs, cs))
    decreases |segs|
  {
    cs := [];
    if segs != [] {
      var more := UncleanOutput(segs[1..]);
      AllCleanAppend([segs[0]], segs[1..]);
      assert [segs[0]] + segs[1..] == segs;
      assert AllClean([segs[0]]) <==> Clean(segs[0]) by { assert [segs[0]][0] == segs[0]; }
      if segs[0].Text? {
        cs := more;
        AllPlainAppend(segs[0].lines, Output(segs[1..], cs));
      } else {
        cs := [if AllPlain(segs[0].ours) then Theirs else Ours] + more;
        assert cs[1..] == more;
        AllPlainAppend(Chosen(segs[0], cs[0]), Output(segs[1..], cs[1..]));
      }
    }
  }

  /** The file as a reader splits it shows no marker line. */
  predicate ShowsNoMarker(file: Option<string>) {
    file.Some? && AllPlain(Split(file.value))
  }

  /** An assembled file has the lines that were put into it. */
  lemma AssembledLines(content: string, cs: seq<Choice>)
    requires |cs| == Parse(content).regionCount && PlainChoices(cs)
    ensures var p := Parse(content);
      Resolved(cs) && Assemble(p, cs).Some? && Split(Assemble(p, cs).value) == Output(p.segments, cs)
  {
    var p := Parse(content);
    forall i | 0 <= i < |cs|
      ensures !cs[i].Unresolved?
    {
      assert PlainChoice(cs[i]);
    }
    ParsedRejoins(content);
    OutputRejoins(p.segments, cs);
    SplitJoin(Output(p.segments, cs));
  }

  /** For every file: whatever is chosen for its regions, the assembled file shows no marker line if
      and only if the markers of the original come in order and every region ends. */
  lemma NoMarkerEchoedIff(content: string)
    ensures Tidy(Split(content), None) <==>
      forall cs :: |cs| == Parse(content).regionCount && PlainChoices(cs) ==>
        ShowsNoMarker(Assemble(Parse(content), cs))
  {
    var p := Parse(content);
    ParsedCleanIff(content);
    forall cs | |cs| == p.regionCount && PlainChoices(cs)
      ensures Assemble(p, cs).Some? && Resolved(cs) && Split(Assemble(p, cs).value) == Output(p.segments, cs)
      ensures AllClean(p.segments) ==> ShowsNoMarker(Assemble(p, cs))
    {
      AssembledLines(content, cs);
      if AllClean(p.segments) {
        CleanOutput(p.segments, cs);
      }
    }
    var cs := UncleanOutput(p.segments);
    AssembledLines(content, cs);
  }

  /** A second opening marker inside a region is kept in ours and comes out again. */
  lemma NestedMarkerIsEchoed()
    ensures Assemble(Parse(Join(["<<<<<<<\n", "<<<<<<<\n", "=======\n", ">>>>>>>\n"])), [Ours]) == Some("<<<<<<<\n")
  {
    var lines := ["<<<<<<<\n", "<<<<<<<\n", "=======\n", ">>>>>>>\n"];
    var m := MarkedRegion(lines[0], [lines[1]], None, [], lines[2], [], lines[3]);
    MarksOfExample();
    assert Fits(m);
    assert RenderLines([m]) == lines by {
      assert [m][1..] == [];
      assert Lines(m) == lines;
    }
    ExampleIsLines(lines);
    assert EraseAll([m]) == [Erased(m)] by { assert [m][1..] == []; }
    assert Regions([Erased(m)]) == 1 by { assert [Erased(m)][1..] == []; }
    ResolvingARenderedFile([m], [Ours]);
    PickedOfOne(m);
  }

  lemma PickedOfOne(m: Marked)
    requires m.MarkedRegion? && |m.ours| == 1
    ensures Regions(EraseAll([m])) == 1 && Join(Picked([m], [Ours])) == m.ours[0]
  {
    assert [m][1..] == [] && [Ours][1..] == [] && [Erased(m)][1..] == [];
    assert EraseAll([m]) == [Erased(m)];
    assert Picked([], []) == [] && Picked([m], [Ours]) == m.ours + [];
    assert m.ours + [] == m.ours && m.ours[1..] == [] && m.ours[0] + [] == m.ours[0];
  }

  lemma ExampleIsLines(lines: seq<string>)
    requires lines == ["<<<<<<<\n", "<<<<<<<\n", "=======\n", ">>>>>>>\n"]
    ensures AreLines(lines)
  {
    forall i | 0 <= i < |lines|
      ensures Ended(lines[i])
    {
      assert lines[i] == "<<<<<<<\n" || lines[i] == "=======\n" || lines[i] == ">>>>>>>\n";
    }
  }

  lemma MarksOfExample()
    ensures MarkOf("<<<<<<<\n") == Open && MarkOf("=======\n") == Separator && MarkOf(">>>>>>>\n") == Close
  {
    var open, separator, close := "<<<<<<<\n", "=======\n", ">>>>>>>\n";
    assert open[0] == '<' && separator[0] == '=' && close[0] == '>';
    assert StripLineEnding(open)[0] == '<' && StripLineEnding(separator)[0] == '=';
    assert StripLineEnding(close)[0] == '>';
  }
}
