/**
  `attachLineCounts` (src/core/git/DiffService.cpp:250-308): the `--numstat -z` records of a commit
  are joined by path onto its changed files, in place.
*/
module Numstat {
  import opened Basics
  import opened RawRecords

  // ----- numbers -----

  function Value(digits: string): nat
    requires forall i :: 0 <= i < |digits| ==> IsDigit(digits[i])
  {
    if digits == [] then 0
    else
      assert IsDigit(digits[|digits| - 1]);
      Value(digits[..|digits| - 1]) * 10 + (digits[|digits| - 1] - '0') as nat
  }

  function DigitsOf(s: string): (n: nat)
    ensures n <= |s| && (forall i :: 0 <= i < n ==> IsDigit(s[i])) && (n < |s| ==> !IsDigit(s[n]))
  {
    if s == [] || !IsDigit(s[0]) then 0 else 1 + DigitsOf(s[1..])
  }

  /** `std::from_chars` into a 32-bit zero: the leading digits, and still zero when there are none
      or they do not fit. */
  function FromChars(s: string): nat {
    Fitting(Value(s[..DigitsOf(s)]))
  }

  function Fitting(n: nat): nat { if n < 0x1_0000_0000 then n else 0 }

  // ----- specification -----

  /** What one entry says: the lines of a path, or that it is binary. */
  datatype Stat = Stat(path: string, lines: Option<(nat, nat)>)

  function Lines(added: string, removed: string): Option<(nat, nat)> {
    if added == "-" || removed == "-" then None else Some((FromChars(added), FromChars(removed)))
  }

  /** The first entry, if there is one, and the number of records it takes. */
  function ReadStat(rs: seq<string>): (r: (Option<Stat>, nat))
    requires rs != []
    ensures 0 < r.1 <= |rs|
  {
    var first := Find(rs[0], '\t', 0);
    if first == |rs[0]| then (None, 1)
    else
      var second := Find(rs[0], '\t', first + 1);
      if second == |rs[0]| then (None, 1)
      else
        var lines := Lines(rs[0][..first], rs[0][first + 1..second]);
        var path := rs[0][second + 1..];
        if path != "" then (Some(Stat(path, lines)), 1)
        else if |rs| < 3 then (None, |rs|)
        else (Some(Stat(rs[2], lines)), 3)
  }

  /** The position of the first file with this path, or the length. */
  function FirstWith(files: seq<ChangedFile>, path: string): (n: nat)
    ensures n <= |files| && (n < |files| ==> files[n].path == path)
    ensures forall i :: 0 <= i < n ==> files[i].path != path
  {
    if files == [] || files[0].path == path then 0 else 1 + FirstWith(files[1..], path)
  }

  function Counted(f: ChangedFile, lines: Option<(nat, nat)>): ChangedFile {
    if lines.None? then f else f.(addedLines := lines.value.0, removedLines := lines.value.1)
  }

  function Apply(files: seq<ChangedFile>, stat: Option<Stat>): (r: seq<ChangedFile>)
    ensures |r| == |files|
  {
    if stat.None? then files
    else
      var k := FirstWith(files, stat.value.path);
      if k == |files| then files else files[k := Counted(files[k], stat.value.lines)]
  }

  function Attached(files: seq<ChangedFile>, rs: seq<string>): (r: seq<ChangedFile>)
    ensures |r| == |files|
    decreases |rs|
  {
    if rs == [] then files
    else
      var (stat, n) := ReadStat(rs);
      Attached(Apply(files, stat), rs[n..])
  }

  // ----- the join, in place -----

  ghost predicate IsIndex(byPath: map<string, nat>, files: seq<ChangedFile>) {
    forall p :: (p in byPath <==> FirstWith(files, p) < |files|) && (p in byPath ==> byPath[p] == FirstWith(files, p))
  }

  lemma {:induction false} FirstWithPush(files: seq<ChangedFile>, f: ChangedFile, p: string)
    ensures FirstWith(files + [f], p) ==
      if FirstWith(files, p) == |files| && f.path != p then |files| + 1 else FirstWith(files, p)
  {
    if files != [] {
      FirstWithPush(files[1..], f, p);
      assert (files + [f])[1..] == files[1..] + [f];
    } else {
      assert files + [f] == [f] && [f][1..] == [];
    }
  }

  method IndexByPath(files: array<ChangedFile>) returns (byPath: map<string, nat>)
    ensures IsIndex(byPath, files[..])
  {
    byPath := map[];
    for i := 0 to files.Length
      invariant IsIndex(byPath, files[..i])
    {
      assert files[..i + 1] == files[..i] + [files[i]];
      forall p ensures FirstWith(files[..i + 1], p) ==
        if FirstWith(files[..i], p) == i && files[i].path != p then i + 1 else FirstWith(files[..i], p)
      {
        FirstWithPush(files[..i], files[i], p);
      }
      if files[i].path !in byPath {
        byPath := byPath[files[i].path := i];
      }
    }
    assert files[..files.Length] == files[..];
  }

  /** Two lists with the same paths have the same index. */
  lemma {:induction false} FirstWithSame(a: seq<ChangedFile>, b: seq<ChangedFile>, p: string)
    requires SamePaths(a, b)
    ensures FirstWith(a, p) == FirstWith(b, p)
  {
    if a != [] {
      FirstWithSame(a[1..], b[1..], p);
    }
  }

  ghost predicate SamePaths(a: seq<ChangedFile>, b: seq<ChangedFile>) {
    |a| == |b| && forall i :: 0 <= i < |a| ==> a[i].path == b[i].path
  }

  /** One entry's effect, found through the index of a list with the same paths. */
  method ApplyStat(
    files: array<ChangedFile>, byPath: map<string, nat>, stat: Option<Stat>, ghost start: seq<ChangedFile>)
    requires IsIndex(byPath, start) && SamePaths(files[..], start)
    modifies files
    ensures files[..] == Apply(old(files[..]), stat) && SamePaths(files[..], start)
  {
    if stat.Some? {
      FirstWithSame(files[..], start, stat.value.path);
      if stat.value.path in byPath {
        var k := byPath[stat.value.path];
        files[k] := Counted(files[k], stat.value.lines);
      }
    }
  }

  /** The entry at `i`, if any, and where the next one starts. */
  method NextStat(ghost files: seq<ChangedFile>, records: seq<string>, i: nat) returns (stat: Option<Stat>, next: nat)
    requires i < |records|
    ensures i < next <= |records|
    ensures Attached(files, records[i..]) == Attached(Apply(files, stat), records[next..])
  {
    var (entry, n) := ReadStat(records[i..]);
    stat, next := entry, i + n;
    assert records[i..][n..] == records[next..];
  }

  method AttachLineCounts(files: array<ChangedFile>, records: seq<string>)
    modifies files
    ensures files[..] == Attached(old(files[..]), records)
  {
    ghost var start := files[..];
    var byPath := IndexByPath(files);
    var i := 0;
    assert records[0..] == records;
    while i < |records|
      invariant i <= |records| && SamePaths(files[..], start)
      invariant Attached(files[..], records[i..]) == Attached(start, records)
    {
      var stat, next := NextStat(files[..], records, i);
      ApplyStat(files, byPath, stat, start);
      i := next;
    }
    assert records[i..] == [];
  }

  // ----- how git writes the records -----

  /** An entry: a rename or copy has an old path. */
  datatype Entry = Entry(oldPath: Option<string>, path: string, lines: Option<(nat, nat)>)

  function AddedField(e: Entry): string { if e.lines.Some? then Numeral(e.lines.value.0) else "-" }

  function RemovedField(e: Entry): string { if e.lines.Some? then Numeral(e.lines.value.1) else "-" }

  function Written(e: Entry): seq<string> {
    var counts := AddedField(e) + (['\t'] + (RemovedField(e) + (['\t'] + if e.oldPath.Some? then "" else e.path)));
    if e.oldPath.Some? then [counts, e.oldPath.value, e.path] else [counts]
  }

  function WrittenAll(es: seq<Entry>): seq<string> {
    if es == [] then [] else Written(es[0]) + WrittenAll(es[1..])
  }

  /** git has no empty path. */
  predicate Proper(es: seq<Entry>) {
    forall i :: 0 <= i < |es| ==> es[i].path != ""
  }

  /** The entry's lines as 32 bits hold them. */
  function Stored(e: Entry): Option<(nat, nat)> {
    if e.lines.None? then None else Some((Fitting(e.lines.value.0), Fitting(e.lines.value.1)))
  }

  /** The records letter by letter. */
  lemma WrittenByFields(was: string, path: string, a: nat, r: nat)
    ensures Written(Entry(None, path, Some((a, r)))) == [Numeral(a) + "\t" + Numeral(r) + "\t" + path]
    ensures Written(Entry(Some(was), path, Some((a, r)))) == [Numeral(a) + "\t" + Numeral(r) + "\t", was, path]
    ensures Written(Entry(None, path, None)) == ["-\t-\t" + path]
    ensures Written(Entry(Some(was), path, None)) == ["-\t-\t", was, path]
  {
    TabJoined(Numeral(a), Numeral(r), path);
    TabJoined(Numeral(a), Numeral(r), "");
    TabJoined("-", "-", path);
    TabJoined("-", "-", "");
    assert Numeral(a) + "\t" + Numeral(r) + "\t" + "" == Numeral(a) + "\t" + Numeral(r) + "\t";
    assert "-" + "\t" + "-" + "\t" == "-\t-\t" && "-\t-\t" + "" == "-\t-\t";
  }

  lemma TabJoined(x: string, y: string, z: string)
    ensures x + "\t" + y + "\t" + z == x + (['\t'] + (y + (['\t'] + z)))
  {
    Associate(x + "\t" + y, "\t", z);
    Associate(x + "\t", y, ['\t'] + z);
    Associate(x, "\t", y + (['\t'] + z));
  }

  // ----- reading undoes writing -----

  lemma {:induction false} ValueOfNumeral(n: nat)
    ensures Value(Numeral(n)) == n
  {
    if n >= 10 {
      ValueOfNumeral(n / 10);
      assert Numeral(n)[..|Numeral(n)| - 1] == Numeral(n / 10);
    } else {
      assert [Digit(n)][..0] == [];
    }
  }

  lemma FromCharsOfNumeral(n: nat)
    ensures FromChars(Numeral(n)) == Fitting(n)
  {
    ValueOfNumeral(n);
    assert DigitsOf(Numeral(n)) == |Numeral(n)|;
    assert Numeral(n)[..|Numeral(n)|] == Numeral(n);
  }

  lemma NumeralIsPlain(n: nat)
    ensures '\t' !in Numeral(n) && Numeral(n) != "-"
  {
    var s := Numeral(n);
    assert IsDigit(s[0]);
  }

  lemma FieldsReadBack(e: Entry)
    ensures '\t' !in AddedField(e) && '\t' !in RemovedField(e)
    ensures Lines(AddedField(e), RemovedField(e)) == Stored(e)
  {
    if e.lines.Some? {
      NumeralIsPlain(e.lines.value.0);
      NumeralIsPlain(e.lines.value.1);
      FromCharsOfNumeral(e.lines.value.0);
      FromCharsOfNumeral(e.lines.value.1);
    }
  }

  lemma RecordReadBack(added: string, removed: string, path: string, rs: seq<string>)
    requires rs != [] && rs[0] == added + (['\t'] + (removed + (['\t'] + path)))
    requires '\t' !in added && '\t' !in removed
    ensures path != "" ==> ReadStat(rs) == (Some(Stat(path, Lines(added, removed))), 1)
    ensures path == "" && |rs| >= 3 ==> ReadStat(rs) == (Some(Stat(rs[2], Lines(added, removed))), 3)
  {
    var s, a, after := rs[0], |added|, removed + (['\t'] + path);
    FindAfter(added, '\t', after);
    SidesOf(added, '\t', after);
    FindShift(s, '\t', a + 1);
    FindAfter(removed, '\t', path);
    SidesOf(removed, '\t', path);
    SliceOfTail(s, a + 1, 0, |removed|);
    TailOfTail(s, a + 1, |removed| + 1);
    assert after[0..|removed|] == after[..|removed|];
  }

  /** An entry is read whole, whatever follows it: two paths are never left behind. */
  lemma EntryReadBack(e: Entry, rest: seq<string>)
    requires e.path != ""
    ensures ReadStat(Written(e) + rest) == (Some(Stat(e.path, Stored(e))), |Written(e)|)
    ensures (Written(e) + rest)[|Written(e)|..] == rest
  {
    FieldsReadBack(e);
    RecordReadBack(AddedField(e), RemovedField(e), if e.oldPath.Some? then "" else e.path, Written(e) + rest);
  }

  lemma AttachedStep(files: seq<ChangedFile>, e: Entry, rest: seq<string>)
    requires e.path != ""
    ensures Attached(files, Written(e) + rest) == Attached(Apply(files, Some(Stat(e.path, Stored(e)))), rest)
  {
    EntryReadBack(e, rest);
  }

  // ----- every file gets its own counts -----

  /** The file after all entries for its path: each one that has lines sets them. */
  function Own(f: ChangedFile, es: seq<Entry>): ChangedFile
    decreases |es|
  {
    if es == [] then f else Own(if es[0].path == f.path then Counted(f, Stored(es[0])) else f, es[1..])
  }

  /** File `k` is the first with its path. */
  predicate Leads(files: seq<ChangedFile>, k: nat)
    requires k < |files|
  {
    forall j :: 0 <= j < k ==> files[j].path != files[k].path
  }

  lemma ApplyAt(files: seq<ChangedFile>, e: Entry, k: nat)
    requires k < |files|
    ensures var next := Apply(files, Some(Stat(e.path, Stored(e))));
      && (forall i :: 0 <= i < |files| ==> next[i].path == files[i].path)
      && next[k] == if e.path == files[k].path && Leads(files, k) then Counted(files[k], Stored(e)) else files[k]
  {
    var n := FirstWith(files, e.path);
    if e.path == files[k].path && Leads(files, k) {
      assert n == k;
    }
  }

  /** Whatever entries there are, in whatever order, renames and binaries among them: a file ends
      with the lines of the entries for its own path and of no other, and a later file that repeats
      a path is left alone. */
  lemma {:induction false} EveryFileGetsItsOwn(files: seq<ChangedFile>, es: seq<Entry>, k: nat)
    requires Proper(es) && k < |files|
    ensures Attached(files, WrittenAll(es))[k] == if Leads(files, k) then Own(files[k], es) else files[k]
    decreases |es|
  {
    if es != [] {
      var e, rest := es[0], WrittenAll(es[1..]);
      var next := Apply(files, Some(Stat(e.path, Stored(e))));
      AttachedStep(files, e, rest);
      ApplyAt(files, e, k);
      EveryFileGetsItsOwn(next, es[1..], k);
    }
  }

  predicate OnlyEntry(es: seq<Entry>, i: nat)
    requires i < |es|
  {
    forall j :: 0 <= j < |es| && j != i ==> es[j].path != es[i].path
  }

  lemma {:induction false} OwnOfOthers(f: ChangedFile, es: seq<Entry>)
    requires forall j :: 0 <= j < |es| ==> es[j].path != f.path
    ensures Own(f, es) == f
    decreases |es|
  {
    if es != [] {
      OwnOfOthers(f, es[1..]);
    }
  }

  lemma {:induction false} OwnOfOnly(f: ChangedFile, es: seq<Entry>, i: nat)
    requires i < |es| && es[i].path == f.path && OnlyEntry(es, i)
    ensures Own(f, es) == Counted(f, Stored(es[i]))
    decreases |es|
  {
    if i == 0 {
      OwnOfOthers(Counted(f, Stored(es[0])), es[1..]);
    } else {
      assert OnlyEntry(es[1..], i - 1);
      OwnOfOnly(f, es[1..], i - 1);
    }
  }

  /** A file with the numbers an entry prints, each 0 when it does not fit 32 bits; a binary keeps its
      own. */
  predicate HasNumbers(after: ChangedFile, before: ChangedFile, lines: Option<(nat, nat)>) {
    match lines
    case None => after == before
    case Some((a, r)) =>
      after == before.(addedLines := if a < 0x1_0000_0000 then a else 0,
                       removedLines := if r < 0x1_0000_0000 then r else 0)
  }

  /** The one entry for a file's path gives the file its first number as added and its second as
      removed lines, wherever it stands among the others; without one the file stays as it is. */
  lemma NumbersOfTheEntry(files: seq<ChangedFile>, es: seq<Entry>, k: nat, i: nat)
    requires Proper(es) && k < |files| && Leads(files, k) && i < |es|
    ensures es[i].path == files[k].path && OnlyEntry(es, i) ==>
      HasNumbers(Attached(files, WrittenAll(es))[k], files[k], es[i].lines)
    ensures (forall j :: 0 <= j < |es| ==> es[j].path != files[k].path) ==>
      Attached(files, WrittenAll(es))[k] == files[k]
  {
    EveryFileGetsItsOwn(files, es, k);
    if es[i].path == files[k].path && OnlyEntry(es, i) {
      OwnOfOnly(files[k], es, i);
    }
    if forall j :: 0 <= j < |es| ==> es[j].path != files[k].path {
      OwnOfOthers(files[k], es);
    }
  }

  /** A commit's two outputs, one entry per changed file and no path twice: each file read back
      from `--raw` ends with the numbers `--numstat` printed for it. */
  lemma JoinOfBothOutputs(fs: seq<ChangedFile>, es: seq<Entry>)
    requires AllWritable(fs) && Proper(es) && |fs| == |es|
    requires forall i :: 0 <= i < |fs| ==> es[i].path == fs[i].path
    requires forall i, j :: 0 <= i < j < |fs| ==> fs[i].path != fs[j].path
    ensures var joined := Attached(ParseRaw(RawRecords.WrittenAll(fs, "")), WrittenAll(es));
      |joined| == |fs| && forall i :: 0 <= i < |fs| ==> HasNumbers(joined[i], fs[i], es[i].lines)
  {
    ParseInvertsWriting(fs);
    forall k: nat | k < |fs| ensures HasNumbers(Attached(fs, WrittenAll(es))[k], fs[k], es[k].lines) {
      NumbersOfTheEntry(fs, es, k, k);
    }
  }

  /** "3\t1\ta.txt" is three lines added and one removed. */
  lemma NumbersExample(f: ChangedFile)
    requires f.path == "a.txt"
    ensures Attached([f], ["3\t1\ta.txt"]) == [f.(addedLines := 3, removedLines := 1)]
  {
    var e := Entry(None, "a.txt", Some((3, 1)));
    WrittenByFields("", "a.txt", 3, 1);
    assert Numeral(3) + "\t" + Numeral(1) + "\t" + "a.txt" == "3\t1\ta.txt";
    assert WrittenAll([e]) == Written(e) + WrittenAll([]) by { assert [e][1..] == []; }
    assert WrittenAll([e]) == ["3\t1\ta.txt"];
    NumbersOfTheEntry([f], [e], 0, 0);
  }

  /** A record with fewer than two tabs is no entry and is passed over. */
  lemma TablessIsSkipped(files: seq<ChangedFile>, record: string, rest: seq<string>)
    requires '\t' !in record
    ensures Attached(files, [record] + rest) == Attached(files, rest)
  {
    FindIs(record, '\t', 0, |record|);
    assert ([record] + rest)[1..] == rest;
  }
}
