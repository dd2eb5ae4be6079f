/**
  `DiffService::commitFileCounts` (src/core/git/DiffService.cpp:394-417): one `git log --raw -z`
  stream is sliced on its commit headers and every slice counted with the shared reader.
*/
module LogCounts {
  import opened Basics
  import opened RawRecords

  const HEADER := "COMMIT "

  datatype FileCount = FileCount(commit: string, fileCount: nat)

  /** The field starts with the header, letter by letter. */
  predicate IsHeader(field: string) {
    && |field| >= 7 && field[0] == 'C' && field[1] == 'O' && field[2] == 'M' && field[3] == 'M'
    && field[4] == 'I' && field[5] == 'T' && field[6] == ' '
  }

  lemma HeaderIsPrefix(field: string)
    ensures IsHeader(field) <==> HEADER <= field
  {
    if IsHeader(field) {
      assert field[..7] == HEADER;
    }
    if HEADER <= field {
      assert forall i :: 0 <= i < 7 ==> field[i] == HEADER[i];
    }
  }

  /** A count as the source stores it, in 32 bits. */
  function Word32(n: nat): nat { n % 0x1_0000_0000 }

  // ----- specification -----

  /** The position of the first header not before `from`, or the length. */
  function NextHeader(rs: seq<string>, from: nat): (n: nat)
    requires from <= |rs|
    ensures from <= n <= |rs| && (n < |rs| ==> IsHeader(rs[n]))
    decreases |rs| - from
  {
    if from == |rs| || IsHeader(rs[from]) then from else NextHeader(rs, from + 1)
  }

  /** A commit as the stream is cut: what its header names, and the records up to the next header. */
  datatype Slice = Slice(commit: string, records: seq<string>)

  function Slices(rs: seq<string>, from: nat): seq<Slice>
    requires from <= |rs|
    decreases |rs| - from
  {
    var h := NextHeader(rs, from);
    if h == |rs| then []
    else
      var end := NextHeader(rs, h + 1);
      [Slice(rs[h][|HEADER|..], rs[h + 1..end])] + Slices(rs, end)
  }

  function CountOf(s: Slice): FileCount {
    FileCount(s.commit, Word32(|ParseRaw(s.records)|))
  }

  function CountAll(ss: seq<Slice>): seq<FileCount> {
    seq(|ss|, i requires 0 <= i < |ss| => CountOf(ss[i]))
  }

  /** One count per header. */
  function Counts(rs: seq<string>): seq<FileCount> {
    CountAll(Slices(rs, 0))
  }

  // ----- the two loops -----

  /** Where header number `h` stands, or the end. */
  function StartOf(at: seq<nat>, h: nat, end: nat): nat {
    if h < |at| then at[h] else end
  }

  /** The slice of header number `h` ends where the next header is, or at `limit`. */
  predicate SliceOk(records: seq<string>, at: seq<nat>, h: nat, limit: nat)
    requires h < |at|
  {
    && at[h] < |records| && IsHeader(records[at[h]])
    && NextHeader(records, at[h] + 1) == StartOf(at, h + 1, limit)
  }

  /** The headers up to position `i` cut the records into slices. */
  ghost predicate SlicedTo(records: seq<string>, at: seq<nat>, i: nat) {
    && i <= |records|
    && NextHeader(records, 0) == StartOf(at, 0, NextHeader(records, i))
    && (forall h :: 0 <= h < |at| ==> SliceOk(records, at, h, NextHeader(records, i)))
  }

  ghost predicate Sliced(records: seq<string>, at: seq<nat>) {
    SlicedTo(records, at, |records|)
  }

  lemma SlicedMore(records: seq<string>, at: seq<nat>, i: nat)
    requires SlicedTo(records, at, i) && i < |records|
    ensures SlicedTo(records, if IsHeader(records[i]) then at + [i] else at, i + 1)
  {
    var more := if IsHeader(records[i]) then at + [i] else at;
    var limit := NextHeader(records, i + 1);
    forall h | 0 <= h < |more|
      ensures SliceOk(records, more, h, limit)
    {
      assert h < |at| ==> SliceOk(records, at, h, NextHeader(records, i));
    }
  }

  method FindHeaders(records: seq<string>) returns (at: seq<nat>)
    ensures Sliced(records, at)
  {
    at := [];
    for i := 0 to |records|
      invariant SlicedTo(records, at, i)
    {
      SlicedMore(records, at, i);
      if IsHeader(records[i]) {
        at := at + [i];
      }
    }
  }

  lemma SliceEnds(records: seq<string>, at: seq<nat>, h: nat)
    requires Sliced(records, at) && h < |at|
    ensures SliceOk(records, at, h, |records|) && at[h] < StartOf(at, h + 1, |records|) <= |records|
  {
    assert SliceOk(records, at, h, NextHeader(records, |records|));
  }

  function SliceAt(records: seq<string>, at: seq<nat>, h: nat): Slice
    requires h < |at| && at[h] < StartOf(at, h + 1, |records|) <= |records| && IsHeader(records[at[h]])
  {
    Slice(records[at[h]][|HEADER|..], records[at[h] + 1..StartOf(at, h + 1, |records|)])
  }

  lemma SlicesFrom(records: seq<string>, at: nat, end: nat)
    requires at < |records| && IsHeader(records[at]) && NextHeader(records, at + 1) == end
    ensures Slices(records, at) == [Slice(records[at][|HEADER|..], records[at + 1..end])] + Slices(records, end)
  {
    assert NextHeader(records, at) == at;
  }

  ghost predicate AreSlices(records: seq<string>, at: seq<nat>, ss: seq<Slice>) {
    |ss| <= |at| && forall h :: 0 <= h < |ss| ==> IsSlice(records, at, h, ss[h])
  }

  predicate IsSlice(records: seq<string>, at: seq<nat>, h: nat, s: Slice)
    requires h < |at|
  {
    && at[h] < StartOf(at, h + 1, |records|) <= |records| && IsHeader(records[at[h]])
    && s == SliceAt(records, at, h)
  }

  lemma SlicesStep(records: seq<string>, start: nat, end: nat, s: Slice)
    requires start < end <= |records| && IsHeader(records[start]) && NextHeader(records, start + 1) == end
    requires s == Slice(records[start][|HEADER|..], records[start + 1..end])
    ensures Slices(records, start) == [s] + Slices(records, end)
  {
    SlicesFrom(records, start, end);
  }

  lemma TailSplits<T>(s: seq<T>, h: nat)
    requires h < |s|
    ensures s[h..] == [s[h]] + s[h + 1..]
  {
  }

  lemma {:induction false} SlicesFromHeader(records: seq<string>, at: seq<nat>, ss: seq<Slice>, h: nat)
    requires Sliced(records, at) && AreSlices(records, at, ss) && |ss| == |at| && h <= |at|
    ensures StartOf(at, h, |records|) <= |records| && Slices(records, StartOf(at, h, |records|)) == ss[h..]
    decreases |at| - h
  {
    if h < |at| {
      SlicesFromHeader(records, at, ss, h + 1);
      SliceEnds(records, at, h);
      assert IsSlice(records, at, h, ss[h]);
      SlicesStep(records, at[h], StartOf(at, h + 1, |records|), ss[h]);
      TailSplits(ss, h);
    }
  }

  lemma SkipToHeader(rs: seq<string>, from: nat)
    requires from <= |rs|
    ensures Slices(rs, NextHeader(rs, from)) == Slices(rs, from)
  {
    var h := NextHeader(rs, from);
    assert NextHeader(rs, h) == h;
  }

  lemma SlicesAreAll(records: seq<string>, at: seq<nat>, ss: seq<Slice>)
    requires Sliced(records, at) && AreSlices(records, at, ss) && |ss| == |at|
    ensures ss == Slices(records, 0)
  {
    SlicesFromHeader(records, at, ss, 0);
    SkipToHeader(records, 0);
    assert NextHeader(records, |records|) == |records|;
  }

  method CommitFileCounts(records: seq<string>) returns (counts: seq<FileCount>)
    ensures counts == Counts(records)
  {
    var at := FindHeaders(records);
    counts := [];
    ghost var ss: seq<Slice> := [];
    for h := 0 to |at|
      invariant |ss| == h && AreSlices(records, at, ss) && counts == CountAll(ss)
    {
      SliceEnds(records, at, h);
      var files := ParseRawRecords(records, at[h] + 1, StartOf(at, h + 1, |records|));
      counts := counts + [FileCount(records[at[h]][|HEADER|..], Word32(|files|))];
      ss := ss + [SliceAt(records, at, h)];
    }
    SlicesAreAll(records, at, ss);
  }

  // ----- how git writes the stream -----

  /** One commit: its header, blank fields, its records (the first after some newlines), and blank
      fields again. */
  datatype Commit = Commit(
    hex: string, before: seq<string>, lead: string, files: seq<ChangedFile>, after: seq<string>)

  predicate Proper(c: Commit) {
    Blank(c.before) && Newlines(c.lead) && AllWritable(c.files) && Blank(c.after)
  }

  predicate AllProper(cs: seq<Commit>) {
    forall i :: 0 <= i < |cs| ==> Proper(cs[i])
  }

  function Body(c: Commit): seq<string>
    requires Proper(c)
  {
    c.before + (WrittenAll(c.files, c.lead) + c.after)
  }

  function Stream(cs: seq<Commit>): seq<string>
    requires AllProper(cs)
  {
    if cs == [] then [] else [HEADER + cs[0].hex] + (Body(cs[0]) + Stream(cs[1..]))
  }

  /** A path that reads like a commit header. */
  predicate Misleading(f: ChangedFile) { IsHeader(f.path) || IsHeader(f.oldPath) }

  predicate NoneMisleading(cs: seq<Commit>) {
    forall i, k :: 0 <= i < |cs| && 0 <= k < |cs[i].files| ==> !Misleading(cs[i].files[k])
  }

  /** Every commit with the length of its own list. */
  function OwnCounts(cs: seq<Commit>): seq<FileCount> {
    seq(|cs|, i requires 0 <= i < |cs| => FileCount(cs[i].hex, Word32(|cs[i].files|)))
  }

  // ----- counting headers -----

  function Headers(rs: seq<string>): nat {
    if rs == [] then 0 else (if IsHeader(rs[0]) then 1 else 0) + Headers(rs[1..])
  }

  lemma {:induction false} HeadersAppend(a: seq<string>, b: seq<string>)
    ensures Headers(a + b) == Headers(a) + Headers(b)
  {
    if a == [] {
      assert a + b == b;
    } else {
      HeadersAppend(a[1..], b);
      assert (a + b)[1..] == a[1..] + b;
    }
  }

  lemma {:induction false} NoHeaders(rs: seq<string>)
    ensures Headers(rs) == 0 <==> forall i :: 0 <= i < |rs| ==> !IsHeader(rs[i])
  {
    if rs != [] {
      NoHeaders(rs[1..]);
      assert forall i :: 1 <= i < |rs| ==> rs[i] == rs[1..][i - 1];
    }
  }

  lemma SlicesNext(rs: seq<string>, from: nat)
    requires from < |rs|
    ensures |Slices(rs, from)| == (if IsHeader(rs[from]) then 1 else 0) + |Slices(rs, from + 1)|
  {
    SkipToHeader(rs, from + 1);
    if IsHeader(rs[from]) {
      SlicesFrom(rs, from, NextHeader(rs, from + 1));
    } else {
      SkipToHeader(rs, from);
    }
  }

  lemma {:induction false} SlicesPerHeader(rs: seq<string>, from: nat)
    requires from <= |rs|
    ensures |Slices(rs, from)| == Headers(rs[from..])
    decreases |rs| - from
  {
    if from < |rs| {
      SlicesNext(rs, from);
      SlicesPerHeader(rs, from + 1);
      assert rs[from..][1..] == rs[from + 1..];
    }
  }

  /** There are as many counts as fields that read like a header. */
  lemma CountsPerHeader(rs: seq<string>)
    ensures |Counts(rs)| == Headers(rs)
  {
    SlicesPerHeader(rs, 0);
    assert rs[0..] == rs;
  }

  lemma BlankHasNoHeader(rs: seq<string>)
    requires Blank(rs)
    ensures Headers(rs) == 0
  {
    forall i | 0 <= i < |rs| ensures !IsHeader(rs[i]) {
      NewlinesAreNoHeader(rs[i], "");
      assert rs[i] + "" == rs[i];
    }
    NoHeaders(rs);
  }

  lemma NewlinesAreNoHeader(lead: string, s: string)
    requires Newlines(lead) && !IsHeader(s)
    ensures !IsHeader(lead + s)
  {
    if lead == [] {
      assert lead + s == s;
    } else {
      assert IsNewline(lead[0]);
      assert HEADER[0] == 'C';
    }
  }

  lemma MetaIsNoHeader(f: ChangedFile, lead: string)
    requires Writable(f) && Newlines(lead)
    ensures !IsHeader(lead + MetaLine(f))
  {
    assert MetaLine(f)[0] == ':' && HEADER[0] == 'C';
    NewlinesAreNoHeader(lead, MetaLine(f));
  }

  lemma HeadersOfFile(f: ChangedFile, lead: string)
    requires Writable(f) && Newlines(lead)
    ensures Headers(Written(f, lead)) == 0 <==> !Misleading(f)
  {
    MetaIsNoHeader(f, lead);
    NoHeaders(Written(f, lead));
    var rs := Written(f, lead);
    assert rs[0] == lead + MetaLine(f);
    if TwoPaths(f.kind) {
      assert rs[1] == f.oldPath && rs[2] == f.path;
    } else {
      assert rs[1] == f.path;
    }
  }

  predicate NoneMisleads(fs: seq<ChangedFile>) {
    forall k :: 0 <= k < |fs| ==> !Misleading(fs[k])
  }

  lemma {:induction false} HeadersOfFiles(fs: seq<ChangedFile>, lead: string)
    requires AllWritable(fs) && Newlines(lead)
    ensures Headers(WrittenAll(fs, lead)) == 0 <==> NoneMisleads(fs)
    decreases |fs|
  {
    if fs != [] {
      HeadersOfFile(fs[0], lead);
      HeadersOfFiles(fs[1..], "");
      HeadersAppend(Written(fs[0], lead), WrittenAll(fs[1..], ""));
      assert NoneMisleads(fs) <==> !Misleading(fs[0]) && NoneMisleads(fs[1..]) by {
        assert forall k :: 1 <= k < |fs| ==> fs[k] == fs[1..][k - 1];
      }
    }
  }

  lemma HeadersOfBody(c: Commit)
    requires Proper(c)
    ensures Headers(Body(c)) == 0 <==> NoneMisleads(c.files)
  {
    BlankHasNoHeader(c.before);
    BlankHasNoHeader(c.after);
    HeadersOfFiles(c.files, c.lead);
    HeadersAppend(WrittenAll(c.files, c.lead), c.after);
    HeadersAppend(c.before, WrittenAll(c.files, c.lead) + c.after);
  }

  lemma {:induction false} HeadersOfStream(cs: seq<Commit>)
    requires AllProper(cs)
    ensures Headers(Stream(cs)) >= |cs|
    ensures Headers(Stream(cs)) == |cs| <==> NoneMisleading(cs)
    decreases |cs|
  {
    if cs != [] {
      var rest := Body(cs[0]) + Stream(cs[1..]);
      HeadersOfStream(cs[1..]);
      HeadersOfBody(cs[0]);
      HeadersAppend(Body(cs[0]), Stream(cs[1..]));
      HeaderFirst(cs[0].hex, rest);
      NoneMisleadingRest(cs);
    }
  }

  lemma HeaderFirst(hex: string, rest: seq<string>)
    ensures IsHeader(HEADER + hex) && Headers([HEADER + hex] + rest) == 1 + Headers(rest)
  {
    assert ([HEADER + hex] + rest)[1..] == rest;
  }

  lemma NoneMisleadingRest(cs: seq<Commit>)
    requires cs != []
    ensures NoneMisleading(cs) <==> NoneMisleads(cs[0].files) && NoneMisleading(cs[1..])
  {
    assert forall i :: 1 <= i < |cs| ==> cs[i] == cs[1..][i - 1];
  }

  // ----- the counts -----

  lemma BodyReadBack(c: Commit)
    requires Proper(c)
    ensures ParseRaw(Body(c)) == c.files
  {
    BlankIsSkipped(c.before, WrittenAll(c.files, c.lead) + c.after);
    FilesReadBack(c.files, c.lead, c.after);
  }

  /** `b` is what `all` holds from position `n` on. */
  predicate TailAt(all: seq<string>, n: nat, b: seq<string>) {
    |all| == n + |b| && forall i :: 0 <= i < |b| ==> all[n + i] == b[i]
  }

  lemma AppendTail(a: seq<string>, b: seq<string>)
    ensures TailAt(a + b, |a|, b)
  {
  }

  lemma TailSlice(all: seq<string>, n: nat, b: seq<string>, from: nat, to: nat)
    requires TailAt(all, n, b) && from <= to <= |b|
    ensures all[n + from..n + to] == b[from..to]
  {
    assert forall i :: from <= i < to ==> all[n + i] == b[i];
  }

  lemma {:induction false} NextHeaderShift(all: seq<string>, n: nat, b: seq<string>, from: nat)
    requires TailAt(all, n, b) && from <= |b|
    ensures NextHeader(all, n + from) == n + NextHeader(b, from)
    decreases |b| - from
  {
    if from < |b| {
      assert all[n + from] == b[from];
      if !IsHeader(b[from]) {
        NextHeaderShift(all, n, b, from + 1);
      }
    }
  }

  lemma SlicesAt(rs: seq<string>, from: nat, h: nat, end: nat, s: Slice)
    requires from <= h < end <= |rs| && NextHeader(rs, from) == h && NextHeader(rs, h + 1) == end
    requires s == Slice(rs[h][|HEADER|..], rs[h + 1..end])
    ensures Slices(rs, from) == [s] + Slices(rs, end)
  {
  }

  /** One shifted slice in front of slices that are already known to be the same. */
  lemma SameSlices(all: seq<string>, n: nat, b: seq<string>, from: nat, h: nat, end: nat)
    requires TailAt(all, n, b) && from <= h < end <= |b|
    requires NextHeader(b, from) == h && NextHeader(b, h + 1) == end
    requires NextHeader(all, n + from) == n + h && NextHeader(all, n + h + 1) == n + end
    requires Slices(all, n + end) == Slices(b, end)
    ensures Slices(all, n + from) == Slices(b, from)
  {
    var s := Slice(b[h][|HEADER|..], b[h + 1..end]);
    TailSlice(all, n, b, h + 1, end);
    assert all[n + h] == b[h];
    SlicesAt(b, from, h, end, s);
    SlicesAt(all, n + from, n + h, n + end, s);
  }

  lemma {:induction false} SlicesShift(all: seq<string>, n: nat, b: seq<string>, from: nat)
    requires TailAt(all, n, b) && from <= |b|
    ensures Slices(all, n + from) == Slices(b, from)
    decreases |b| - from
  {
    var h := NextHeader(b, from);
    NextHeaderShift(all, n, b, from);
    if h < |b| {
      var end := NextHeader(b, h + 1);
      NextHeaderShift(all, n, b, h + 1);
      SlicesShift(all, n, b, end);
      SameSlices(all, n, b, from, h, end);
    }
  }

  lemma {:induction false} NextHeaderPast(body: seq<string>, rest: seq<string>, from: nat)
    requires from <= |body| && Headers(body[from..]) == 0 && (rest != [] ==> IsHeader(rest[0]))
    ensures NextHeader(body + rest, from) == |body|
    decreases |body| - from
  {
    if from < |body| {
      assert body[from..][1..] == body[from + 1..] && (body + rest)[from] == body[from];
      NextHeaderPast(body, rest, from + 1);
    }
  }

  /** Nothing is cut off before the first header. */
  lemma SlicesPast(body: seq<string>, rest: seq<string>)
    requires Headers(body) == 0 && (rest != [] ==> IsHeader(rest[0]))
    ensures NextHeader(body + rest, 0) == |body| && Slices(body + rest, 0) == Slices(rest, 0)
  {
    assert body[0..] == body;
    NextHeaderPast(body, rest, 0);
    SkipToHeader(body + rest, 0);
    AppendTail(body, rest);
    SlicesShift(body + rest, |body|, rest, 0);
  }

  lemma SliceOfCommit(c: Commit, rest: seq<string>)
    requires Proper(c) && NoneMisleads(c.files) && (rest != [] ==> IsHeader(rest[0]))
    ensures Slices([HEADER + c.hex] + (Body(c) + rest), 0) == [Slice(c.hex, Body(c))] + Slices(rest, 0)
  {
    HeadersOfBody(c);
    HeaderFirst(c.hex, Body(c) + rest);
    SliceOfHeader(HEADER + c.hex, Body(c), rest);
    assert (HEADER + c.hex)[|HEADER|..] == c.hex;
  }

  lemma SliceOfHeader(header: string, body: seq<string>, rest: seq<string>)
    requires IsHeader(header) && Headers(body) == 0 && (rest != [] ==> IsHeader(rest[0]))
    ensures Slices([header] + (body + rest), 0) == [Slice(header[|HEADER|..], body)] + Slices(rest, 0)
  {
    var tail := body + rest;
    var rs := [header] + tail;
    SlicesPast(body, rest);
    AppendTail([header], tail);
    NextHeaderShift(rs, 1, tail, 0);
    SlicesFrom(rs, 0, |body| + 1);
    AppendTail([header] + body, rest);
    Associate([header], body, rest);
    SlicesShift(rs, |body| + 1, rest, 0);
    assert rs[1..|body| + 1] == body;
  }

  /** Every commit with its own records. */
  function OwnSlices(cs: seq<Commit>): seq<Slice>
    requires AllProper(cs)
  {
    seq(|cs|, i requires 0 <= i < |cs| => Slice(cs[i].hex, Body(cs[i])))
  }

  lemma {:induction false} SlicesOfStream(cs: seq<Commit>)
    requires AllProper(cs) && NoneMisleading(cs)
    ensures Slices(Stream(cs), 0) == OwnSlices(cs)
    decreases |cs|
  {
    if cs != [] {
      NoneMisleadingRest(cs);
      SlicesOfStream(cs[1..]);
      StreamStartsWithHeader(cs[1..]);
      SliceOfCommit(cs[0], Stream(cs[1..]));
      OwnSlicesRest(cs);
    }
  }

  lemma StreamStartsWithHeader(cs: seq<Commit>)
    requires AllProper(cs)
    ensures Stream(cs) != [] ==> IsHeader(Stream(cs)[0])
  {
    if cs != [] {
      HeaderFirst(cs[0].hex, []);
    }
  }

  lemma OwnSlicesRest(cs: seq<Commit>)
    requires AllProper(cs) && cs != []
    ensures OwnSlices(cs) == [Slice(cs[0].hex, Body(cs[0]))] + OwnSlices(cs[1..])
  {
  }

  lemma OwnSlicesCount(cs: seq<Commit>)
    requires AllProper(cs)
    ensures CountAll(OwnSlices(cs)) == OwnCounts(cs)
  {
    forall i | 0 <= i < |cs|
      ensures CountOf(OwnSlices(cs)[i]) == OwnCounts(cs)[i]
    {
      BodyReadBack(cs[i]);
    }
  }

  lemma SlicesAfterBlank(blank: seq<string>, rest: seq<string>)
    requires Blank(blank) && (rest != [] ==> IsHeader(rest[0]))
    ensures Slices(blank + rest, 0) == Slices(rest, 0)
  {
    BlankHasNoHeader(blank);
    SlicesPast(blank, rest);
  }

  /** Slicing and counting gives every commit the length of its own list exactly when no path
      reads like a commit header. */
  lemma CountsAreOwnIff(blank: seq<string>, cs: seq<Commit>)
    requires Blank(blank) && AllProper(cs)
    ensures Counts(blank + Stream(cs)) == OwnCounts(cs) <==> NoneMisleading(cs)
  {
    StreamStartsWithHeader(cs);
    SlicesAfterBlank(blank, Stream(cs));
    HeadersOfStream(cs);
    CountsPerHeader(Stream(cs));
    if NoneMisleading(cs) {
      SlicesOfStream(cs);
      OwnSlicesCount(cs);
    }
  }

  /** The history column shows the length of the list the panel shows: the sliced count of a commit
      is that of its own records read alone, as `changedFiles` reads them. */
  lemma ColumnAgreesWithPanel(blank: seq<string>, cs: seq<Commit>, i: nat)
    requires Blank(blank) && AllProper(cs) && NoneMisleading(cs) && i < |cs|
    ensures var counts := Counts(blank + Stream(cs));
      |counts| == |cs| && counts[i] == FileCount(cs[i].hex, Word32(|ParseRaw(WrittenAll(cs[i].files, ""))|))
  {
    CountsAreOwnIff(blank, cs);
    ParseInvertsWriting(cs[i].files);
  }

  /** A changed file called "COMMIT x" is taken for a second commit. */
  lemma MisleadingPathIsCounted()
    ensures var f := ChangedFile("COMMIT x", "", Added, "0", "1", "a", "b", 0, 0, 0);
      var cs := [Commit("c1", [], "\n", [f], [])];
      AllProper(cs) && |Counts(Stream(cs))| > 1
  {
    var f := ChangedFile("COMMIT x", "", Added, "0", "1", "a", "b", 0, 0, 0);
    var cs := [Commit("c1", [], "\n", [f], [])];
    assert IsHeader(f.path) && Misleading(cs[0].files[0]);
    HeadersOfStream(cs);
    CountsPerHeader(Stream(cs));
  }

  /** The counts in numbers: each commit's name with the number of its files, below 2^32. */
  lemma CountsByNumbers(blank: seq<string>, cs: seq<Commit>, i: nat)
    requires Blank(blank) && AllProper(cs) && NoneMisleading(cs) && i < |cs|
    ensures var counts := Counts(blank + Stream(cs));
      && |counts| == |cs| && counts[i].commit == cs[i].hex
      && (|cs[i].files| < 0x1_0000_0000 ==> counts[i].fileCount == |cs[i].files|)
  {
    CountsAreOwnIff(blank, cs);
    OwnCountsByNumbers(cs, i);
  }

  lemma OwnCountsByNumbers(cs: seq<Commit>, i: nat)
    requires i < |cs|
    ensures |OwnCounts(cs)| == |cs| && OwnCounts(cs)[i].commit == cs[i].hex
    ensures |cs[i].files| < 0x1_0000_0000 ==> OwnCounts(cs)[i].fileCount == |cs[i].files|
  {
  }

  /** The stream of a commit with one added file, letter by letter. */
  lemma StreamExample()
    ensures var f := ChangedFile("x", "", Added, "0", "1", "a", "b", 0, 0, 0);
      var cs := [Commit("c1", [""], "\n", [f], [])];
      AllProper(cs) && Stream(cs) == ["COMMIT c1", "", "\n:0 1 a b A", "x"]
  {
    var f := ChangedFile("x", "", Added, "0", "1", "a", "b", 0, 0, 0);
    var c := Commit("c1", [""], "\n", [f], []);
    SpacedFive("0", "1", "a", "b", "A");
    assert Status(f) == "A" && MetaLine(f) == ":0 1 a b A";
    assert [f][1..] == [] && [c][1..] == [];
    assert "\n" + MetaLine(f) == "\n:0 1 a b A";
    assert RawRecords.Written(f, "\n") == ["\n:0 1 a b A", "x"];
    assert WrittenAll([f], "\n") == RawRecords.Written(f, "\n") + [];
    assert Body(c) == ["", "\n:0 1 a b A", "x"];
    assert HEADER + "c1" == "COMMIT c1";
  }
}
