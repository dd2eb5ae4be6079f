/**
  `ConflictMarkerParser` (src/core/git/ConflictMarkerParser.cpp): a file with conflict markers is
  split into text and regions, and a choice per region is assembled back into a file.
*/
module ConflictMarkers {
  import opened Basics

  // ----- lines -----

  /** The position just after the first newline not before `start`, or the whole length. */
  function LineEnd(s: string, start: nat): (n: nat)
    requires start < |s|
    ensures start < n <= |s|
  {
    var newline := Find(s, '\n', start);
    if newline == |s| then newline else newline + 1
  }

  function Split(s: string): seq<string> {
    if s == [] then [] else [s[..LineEnd(s, 0)]] + Split(s[LineEnd(s, 0)..])
  }

  function Join(lines: seq<string>): string {
    if lines == [] then [] else lines[0] + Join(lines[1..])
  }

  /** One line: not empty, and a newline only at its end. */
  predicate IsLine(l: string) {
    l != [] && forall i :: 0 <= i < |l| - 1 ==> l[i] != '\n'
  }

  /** Lines that can stand in a file in this order: all but the last end in a newline. */
  predicate AreLines(lines: seq<string>) {
    && (forall i :: 0 <= i < |lines| ==> IsLine(lines[i]))
    && (forall i :: 0 <= i < |lines| - 1 ==> lines[i][|lines[i]| - 1] == '\n')
  }

  lemma {:induction false} JoinSplit(s: string)
    ensures Join(Split(s)) == s
    decreases |s|
  {
    if s != [] {
      JoinSplit(s[LineEnd(s, 0)..]);
    }
  }

  lemma LineEndOf(l: string, rest: string)
    requires IsLine(l) && (rest != [] ==> l[|l| - 1] == '\n')
    ensures LineEnd(l + rest, 0) == |l|
  {
    var newline := if l[|l| - 1] == '\n' then |l| - 1 else |l|;
    FindIs(l + rest, '\n', 0, newline);
  }

  /** Splitting undoes joining, whatever mixture of endings the lines have. */
  lemma {:induction false} SplitJoin(lines: seq<string>)
    requires AreLines(lines)
    ensures Split(Join(lines)) == lines
    decreases |lines|
  {
    if lines != [] {
      var l, rest := lines[0], Join(lines[1..]);
      assert AreLines(lines[1..]);
      SplitJoin(lines[1..]);
      if |lines| == 1 {
        assert rest == [];
      }
      LineEndOf(l, rest);
      assert (l + rest)[..|l|] == l && (l + rest)[|l|..] == rest;
    }
  }

  lemma {:induction false} JoinAppend(a: seq<string>, b: seq<string>)
    ensures Join(a + b) == Join(a) + Join(b)
  {
    if a == [] {
      assert a + b == b;
    } else {
      JoinAppend(a[1..], b);
      assert (a + b)[1..] == a[1..] + b && (a + b)[0] == a[0];
      Associate(a[0], Join(a[1..]), Join(b));
    }
  }

  lemma SplitStep(content: string, start: nat)
    requires start < |content|
    ensures var end := LineEnd(content, start);
      Split(content[start..]) == [content[start..end]] + Split(content[end..])
  {
    FindShift(content, '\n', start);
    var end, rest := LineEnd(content, start), content[start..];
    assert rest[..end - start] == content[start..end] && rest[end - start..] == content[end..];
  }

  /** One turn of the loop, whatever the lines are to add up to. */
  lemma SplitMore(lines: seq<string>, content: string, start: nat, all: seq<string>)
    requires start < |content| && lines + Split(content[start..]) == all
    ensures var end := LineEnd(content, start);
      lines + [content[start..end]] + Split(content[end..]) == all
  {
    SplitStep(content, start);
    var end := LineEnd(content, start);
    Associate(lines, [content[start..end]], Split(content[end..]));
  }

  method SplitKeepingLineEndings(content: string) returns (lines: seq<string>)
    ensures lines == Split(content)
  {
    lines := [];
    var start := 0;
    assert content[0..] == content;
    while start < |content|
      invariant start <= |content|
      invariant lines + Split(content[start..]) == Split(content)
    {
      SplitMore(lines, content, start, Split(content));
      var end := LineEnd(content, start);
      lines := lines + [content[start..end]];
      start := end;
    }
    assert content[start..] == [];
  }

  // ----- marks -----

  function StripLineEnding(l: string): string {
    var s := if l != [] && l[|l| - 1] == '\n' then l[..|l| - 1] else l;
    if s != [] && s[|s| - 1] == '\r' then s[..|s| - 1] else s
  }

  datatype Mark = Open | BaseMark | Separator | Close | Plain

  /** Seven times `c` at the start. */
  predicate StartsWithSeven(c: char, s: string) {
    |s| >= 7 && forall i :: 0 <= i < 7 ==> s[i] == c
  }

  function MarkOf(l: string): Mark {
    var s := StripLineEnding(l);
    if StartsWithSeven('<', s) then Open
    else if StartsWithSeven('|', s) then BaseMark
    else if |s| == 7 && StartsWithSeven('=', s) then Separator
    else if StartsWithSeven('>', s) then Close
    else Plain
  }

  /** The seven letters are untouched by the line ending. */
  lemma StripKeepsSeven(c: char, l: string)
    requires c != '\n' && c != '\r'
    ensures StartsWithSeven(c, StripLineEnding(l)) <==> StartsWithSeven(c, l)
  {
    if StartsWithSeven(c, l) {
      assert l[6] == c;
    }
  }

  lemma SevenByLetters(l: string)
    ensures StartsWithSeven('<', l) <==> "<<<<<<<" <= l
    ensures StartsWithSeven('|', l) <==> "|||||||" <= l
    ensures StartsWithSeven('=', l) <==> "=======" <= l
    ensures StartsWithSeven('>', l) <==> ">>>>>>>" <= l
  {
    SevenIs('<', "<<<<<<<", l);
    SevenIs('|', "|||||||", l);
    SevenIs('=', "=======", l);
    SevenIs('>', ">>>>>>>", l);
  }

  lemma SevenIs(c: char, seven: string, l: string)
    requires |seven| == 7 && forall i :: 0 <= i < 7 ==> seven[i] == c
    ensures StartsWithSeven(c, l) <==> seven <= l
  {
    if StartsWithSeven(c, l) {
      assert l[..7] == seven;
    }
    if seven <= l {
      assert forall i :: 0 <= i < 7 ==> l[i] == seven[i];
    }
  }

  /** A line that is the separator and nothing else but a line ending. */
  predicate IsSeparator(l: string) {
    l == "=======" || l == "=======\n" || l == "=======\r\n" || l == "=======\r"
  }

  lemma SeparatorByLetters(l: string)
    ensures var s := StripLineEnding(l); |s| == 7 && StartsWithSeven('=', s) <==> IsSeparator(l)
  {
    var s := StripLineEnding(l);
    StripKeepsSeven('=', l);
    SevenByLetters(l);
    if |s| == 7 && StartsWithSeven('=', s) {
      assert l == l[..7] + l[7..] && l[..7] == "=======";
      assert |l| == 7 ==> l[7..] == "";
      assert |l| == 8 ==> l[7..] == [l[7]];
      assert |l| == 9 ==> l[7..] == [l[7], l[8]];
    }
  }

  /** What every line is, letter by letter. */
  lemma MarkOfLine(l: string)
    ensures MarkOf(l) ==
      if "<<<<<<<" <= l then Open
      else if "|||||||" <= l then BaseMark
      else if IsSeparator(l) then Separator
      else if ">>>>>>>" <= l then Close
      else Plain
  {
    SevenByLetters(l);
    SeparatorByLetters(l);
    StripKeepsSeven('<', l);
    StripKeepsSeven('|', l);
    StripKeepsSeven('>', l);
  }

  /** Markers with any label and line ending behind them. */
  lemma OpenByLetters(rest: string)
    ensures MarkOf("<<<<<<<" + rest) == Open
  {
    MarkOfLine("<<<<<<<" + rest);
  }

  lemma BaseByLetters(rest: string)
    ensures MarkOf("|||||||" + rest) == BaseMark
  {
    var l := "|||||||" + rest;
    assert l[0] == '|' && "<<<<<<<"[0] == '<';
    MarkOfLine(l);
  }

  lemma CloseByLetters(rest: string)
    ensures MarkOf(">>>>>>>" + rest) == Close
  {
    var l := ">>>>>>>" + rest;
    assert l[0] == '>' && "<<<<<<<"[0] == '<' && "|||||||"[0] == '|' && "======="[0] == '=';
    MarkOfLine(l);
  }

  lemma SeparatorHasMark(l: string)
    requires IsSeparator(l)
    ensures MarkOf(l) == Separator
  {
    assert l[0] == '=' && "<<<<<<<"[0] == '<' && "|||||||"[0] == '|';
    MarkOfLine(l);
  }

  // ----- parsing -----

  datatype Segment =
    | Text(lines: seq<string>)
    | Region(ours: seq<string>, base: seq<string>, theirs: seq<string>, hasBase: bool)

  datatype Parsed = Parsed(segments: seq<Segment>, regionCount: nat, wellFormed: bool)

  datatype Side = InOurs | InBase | InTheirs

  const NOTHING := Region([], [], [], false)

  function Push(r: Segment, side: Side, l: string): Segment
    requires r.Region?
  {
    match side
    case InOurs => r.(ours := r.ours + [l])
    case InBase => r.(base := r.base + [l])
    case InTheirs => r.(theirs := r.theirs + [l])
  }

  /** From inside a region on `side` with `r` collected: the finished region and the lines after
      it, or None when it has no end or no separator. */
  function Collect(lines: seq<string>, side: Side, r: Segment): (res: Option<(Segment, seq<string>)>)
    requires r.Region?
    ensures res.Some? ==> res.value.0.Region? && |res.value.1| < |lines|
    decreases |lines|
  {
    if lines == [] then None
    else
      match MarkOf(lines[0])
      case Close => if side.InTheirs? then Some((r, lines[1..])) else None
      case Separator => Collect(lines[1..], InTheirs, r)
      case BaseMark =>
        if side.InTheirs? then Collect(lines[1..], side, Push(r, side, lines[0]))
        else Collect(lines[1..], InBase, r.(hasBase := true))
      case _ => Collect(lines[1..], side, Push(r, side, lines[0]))
  }

  function Flush(pending: seq<string>): seq<Segment> {
    if pending == [] then [] else [Text(pending)]
  }

  function Glue(a: seq<Segment>, b: Option<seq<Segment>>): Option<seq<Segment>> {
    if b.Some? then Some(a + b.value) else None
  }

  /** The segments of these lines after `pending` text, or None when they are malformed. */
  function Segments(lines: seq<string>, pending: seq<string>): Option<seq<Segment>>
    decreases |lines|
  {
    if lines == [] then Some(Flush(pending))
    else if !MarkOf(lines[0]).Open? then Segments(lines[1..], pending + [lines[0]])
    else
      var c := Collect(lines[1..], InOurs, NOTHING);
      if c.None? then None else Glue(Flush(pending) + [c.value.0], Segments(c.value.1, []))
  }

  function Regions(segs: seq<Segment>): nat {
    if segs == [] then 0 else (if segs[0].Region? then 1 else 0) + Regions(segs[1..])
  }

  function Parse(content: string): Parsed {
    var segs := Segments(Split(content), []);
    if segs.Some? then Parsed(segs.value, Regions(segs.value), true) else Parsed([Text(Split(content))], 0, false)
  }

  /** Where a line that does not close the region leads. */
  function Turn(side: Side, mark: Mark): Side {
    if mark.Separator? then InTheirs else if mark.BaseMark? && !side.InTheirs? then InBase else side
  }

  function Grown(r: Segment, side: Side, l: string): Segment
    requires r.Region?
  {
    if MarkOf(l).Separator? then r
    else if MarkOf(l).BaseMark? && !side.InTheirs? then r.(hasBase := true)
    else Push(r, side, l)
  }

  /** One step of the inner loop. */
  lemma CollectStep(lines: seq<string>, j: nat, side: Side, r: Segment)
    requires j < |lines| && r.Region?
    ensures Collect(lines[j..], side, r) ==
      if !MarkOf(lines[j]).Close? then Collect(lines[j + 1..], Turn(side, MarkOf(lines[j])), Grown(r, side, lines[j]))
      else if side.InTheirs? then Some((r, lines[j + 1..])) else None
  {
    assert lines[j..][1..] == lines[j + 1..];
  }

  /** The inner loop, from the line after an opening marker. */
  method CollectRegion(lines: seq<string>, start: nat) returns (res: Option<(Segment, nat)>)
    requires start <= |lines|
    ensures res.None? <==> Collect(lines[start..], InOurs, NOTHING).None?
    ensures res.Some? ==>
      && start < res.value.1 <= |lines|
      && Collect(lines[start..], InOurs, NOTHING) == Some((res.value.0, lines[res.value.1..]))
  {
    var r, side := NOTHING, InOurs;
    var j := start;
    while j < |lines| && !MarkOf(lines[j]).Close?
      invariant start <= j <= |lines| && r.Region?
      invariant Collect(lines[j..], side, r) == Collect(lines[start..], InOurs, NOTHING)
    {
      CollectStep(lines, j, side, r);
      side, r := GrowRegion(r, side, lines[j]);
      j := j + 1;
    }
    if j == |lines| || !side.InTheirs? {
      return None;
    }
    CollectStep(lines, j, side, r);
    return Some((r, j + 1));
  }

  method GrowRegion(r: Segment, side: Side, l: string) returns (turned: Side, grown: Segment)
    requires r.Region? && !MarkOf(l).Close?
    ensures turned == Turn(side, MarkOf(l)) && grown == Grown(r, side, l) && grown.Region?
  {
    var mark := MarkOf(l);
    turned, grown := side, r;
    if !side.InTheirs? && mark.BaseMark? {
      turned := InBase;
      grown := r.(hasBase := true);
    } else if mark.Separator? {
      turned := InTheirs;
    } else {
      grown := Push(r, side, l);
    }
  }

  lemma {:induction false} RegionsAppend(a: seq<Segment>, b: seq<Segment>)
    ensures Regions(a + b) == Regions(a) + Regions(b)
  {
    if a == [] {
      assert a + b == b;
    } else {
      RegionsAppend(a[1..], b);
      assert (a + b)[1..] == a[1..] + b;
    }
  }

  lemma RegionsOfFlush(pending: seq<string>, r: Segment)
    requires r.Region?
    ensures Regions(Flush(pending)) == 0 && Regions(Flush(pending) + [r]) == 1
  {
    RegionsAppend(Flush(pending), [r]);
    assert [r][1..] == [];
    assert pending != [] ==> Flush(pending)[1..] == [];
  }

  lemma GlueNothing(b: Option<seq<Segment>>)
    ensures Glue([], b) == b
  {
    if b.Some? {
      assert [] + b.value == b.value;
    }
  }

  lemma GlueTwice(a: seq<Segment>, b: seq<Segment>, c: Option<seq<Segment>>)
    ensures Glue(a, Glue(b, c)) == Glue(a + b, c)
  {
    if c.Some? {
      Associate(a, b, c.value);
    }
  }

  /** One step of the outer loop. */
  lemma SegmentsStep(lines: seq<string>, i: nat, pending: seq<string>)
    requires i < |lines|
    ensures Segments(lines[i..], pending) ==
      if !MarkOf(lines[i]).Open? then Segments(lines[i + 1..], pending + [lines[i]])
      else
        var c := Collect(lines[i + 1..], InOurs, NOTHING);
        if c.None? then None else Glue(Flush(pending) + [c.value.0], Segments(c.value.1, []))
  {
    assert lines[i..][1..] == lines[i + 1..];
  }

  /** One turn of the outer loop at an opening marker, whatever the segments are to add up to. */
  lemma RegionMore(
    segments: seq<Segment>, lines: seq<string>, i: nat, pending: seq<string>,
    r: Segment, next: nat, all: Option<seq<Segment>>)
    requires i < |lines| && MarkOf(lines[i]).Open? && next <= |lines| && r.Region?
    requires Collect(lines[i + 1..], InOurs, NOTHING) == Some((r, lines[next..]))
    requires Glue(segments, Segments(lines[i..], pending)) == all
    ensures var longer := segments + (Flush(pending) + [r]);
      Glue(longer, Segments(lines[next..], [])) == all && Regions(longer) == Regions(segments) + 1
  {
    SegmentsStep(lines, i, pending);
    GlueTwice(segments, Flush(pending) + [r], Segments(lines[next..], []));
    RegionsAppend(segments, Flush(pending) + [r]);
    RegionsOfFlush(pending, r);
  }

  method ParseFile(content: string) returns (p: Parsed)
    ensures p == Parse(content)
  {
    var lines := SplitKeepingLineEndings(content);
    var segments: seq<Segment> := [];
    var regionCount := 0;
    var pending: seq<string> := [];
    var i := 0;
    GlueNothing(Segments(lines, []));
    assert lines[0..] == lines;
    while i < |lines|
      invariant i <= |lines| && regionCount == Regions(segments)
      invariant Glue(segments, Segments(lines[i..], pending)) == Segments(lines, [])
    {
      SegmentsStep(lines, i, pending);
      if !MarkOf(lines[i]).Open? {
        pending := pending + [lines[i]];
        i := i + 1;
      } else {
        var region := CollectRegion(lines, i + 1);
        if region.None? {
          return Parsed([Text(lines)], 0, false);
        }
        var (r, next) := region.value;
        RegionMore(segments, lines, i, pending, r, next, Segments(lines, []));
        segments := segments + (Flush(pending) + [r]);
        regionCount := regionCount + 1;
        pending := [];
        i := next;
      }
    }
    assert lines[i..] == [];
    RegionsAppend(segments, Flush(pending));
    RegionsOfFlush(pending, NOTHING);
    return Parsed(segments + Flush(pending), regionCount, true);
  }
}
