/**
  The `--raw -z` reader of `DiffService` (src/core/git/DiffService.cpp:16-198, 394-417): fields of
  one commit become changed files, and a `git log` stream is sliced into commits and counted.
*/
module RawRecords {
  import opened Basics

  datatype ChangeKind = Modified | Added | Deleted | Renamed | Copied | TypeChanged | ModeChanged

  datatype ChangedFile = ChangedFile(
    path: string, oldPath: string, kind: ChangeKind,
    oldMode: string, newMode: string, oldBlob: string, newBlob: string,
    similarity: nat, addedLines: nat, removedLines: nat)

  function KindForStatusLetter(letter: char): ChangeKind {
    match letter
    case 'A' => Added
    case 'D' => Deleted
    case 'R' => Renamed
    case 'C' => Copied
    case 'T' => TypeChanged
    case _ => Modified
  }

  predicate TwoPaths(kind: ChangeKind) { kind.Renamed? || kind.Copied? }

  // ----- one metadata record -----

  predicate IsNewline(c: char) { c == '\n' || c == '\r' }

  function WithoutLead(s: string): string {
    if s != [] && IsNewline(s[0]) then WithoutLead(s[1..]) else s
  }

  function Words(s: string): seq<string> {
    if s == [] then []
    else
      var k := Find(s, ' ', 0);
      if k == |s| then [s] else [s[..k]] + Words(s[k + 1..])
  }

  /** The number its digits make, other characters skipped. */
  function Score(s: string): nat {
    if s == [] then 0
    else
      var n := Score(s[..|s| - 1]);
      var c := s[|s| - 1];
      if IsDigit(c) then n * 10 + (c - '0') as nat else n
  }

  /** The changed file a metadata record announces, its paths still missing. */
  function Meta(record: string): Option<ChangedFile> {
    var meta := WithoutLead(record);
    if meta == [] || meta[0] != ':' then None
    else
      var w := Words(meta[1..]);
      if |w| < 5 then None
      else
        var kind := KindForStatusLetter(if w[4] == [] then 'M' else w[4][0]);
        var similarity := if |w[4]| > 1 then Score(w[4][1..]) else 0;
        Some(ChangedFile("", "", kind, w[0], w[1], w[2], w[3], similarity, 0, 0))
  }

  lemma WordsStep(s: string, start: nat)
    requires start < |s|
    ensures var k := Find(s, ' ', start);
      Words(s[start..]) == if k == |s| then [s[start..]] else [s[start..k]] + Words(s[k + 1..])
  {
    FindShift(s, ' ', start);
    var rest, k := s[start..], Find(s, ' ', start);
    if k < |s| {
      assert rest[..k - start] == s[start..k] && rest[k - start + 1..] == s[k + 1..];
    }
  }

  /** One turn of the loop, whatever the words are to add up to. */
  lemma WordsMore(words: seq<string>, s: string, start: nat, all: seq<string>)
    requires start < |s| && words + Words(s[start..]) == all
    ensures var k := Find(s, ' ', start);
      if k == |s| then words + [s[start..]] == all else words + [s[start..k]] + Words(s[k + 1..]) == all
  {
    WordsStep(s, start);
    var k := Find(s, ' ', start);
    if k < |s| {
      Associate(words, [s[start..k]], Words(s[k + 1..]));
    }
  }

  method SplitWords(s: string) returns (words: seq<string>)
    ensures words == Words(s)
  {
    words := [];
    var start := 0;
    assert s[0..] == s;
    while start < |s|
      invariant start <= |s|
      invariant words + Words(s[start..]) == Words(s)
    {
      WordsMore(words, s, start, Words(s));
      var k := Find(s, ' ', start);
      if k == |s| {
        return words + [s[start..]];
      }
      words := words + [s[start..k]];
      start := k + 1;
    }
    assert s[start..] == [];
  }

  method ReadMeta(record: string) returns (file: Option<ChangedFile>)
    ensures file == Meta(record)
  {
    var meta := record;
    while meta != [] && IsNewline(meta[0])
      invariant WithoutLead(meta) == WithoutLead(record)
      decreases |meta|
    {
      meta := meta[1..];
    }
    if meta == [] || meta[0] != ':' {
      return None;
    }
    var w := SplitWords(meta[1..]);
    if |w| < 5 {
      return None;
    }
    var status, similarity := w[4], 0;
    var kind := KindForStatusLetter(if status == [] then 'M' else status[0]);
    if |status| > 1 {
      for d := 1 to |status|
        invariant similarity == Score(status[1..d])
      {
        assert status[1..d + 1][..d - 1] == status[1..d];
        if IsDigit(status[d]) {
          similarity := similarity * 10 + (status[d] - '0') as nat;
        }
      }
      assert status[1..|status|] == status[1..];
    }
    return Some(ChangedFile("", "", kind, w[0], w[1], w[2], w[3], similarity, 0, 0));
  }

  // ----- the records of one commit -----

  function ParseRaw(rs: seq<string>): seq<ChangedFile> {
    if rs == [] then []
    else
      match Meta(rs[0])
      case None => ParseRaw(rs[1..])
      case Some(f) =>
        if TwoPaths(f.kind) && 2 < |rs| then [f.(oldPath := rs[1], path := rs[2])] + ParseRaw(rs[3..])
        else if 1 < |rs| then [f.(path := rs[1])] + ParseRaw(rs[2..])
        else []
  }

  /** One turn of the loop: the file that starts at `i`, if any, and where the next may start. */
  method ReadEntry(records: seq<string>, i: nat, end: nat) returns (file: seq<ChangedFile>, next: nat)
    requires i < end <= |records|
    ensures i < next <= end && ParseRaw(records[i..end]) == file + ParseRaw(records[next..end])
  {
    ghost var rs := records[i..end];
    assert rs[1..] == records[i + 1..end];
    var meta := ReadMeta(records[i]);
    if meta.None? {
      return [], i + 1;
    } else if TwoPaths(meta.value.kind) && i + 2 < end {
      assert rs[3..] == records[i + 3..end];
      return [meta.value.(oldPath := records[i + 1], path := records[i + 2])], i + 3;
    } else if i + 1 < end {
      assert rs[2..] == records[i + 2..end];
      return [meta.value.(path := records[i + 1])], i + 2;
    } else {
      return [], end;
    }
  }

  method ParseRawRecords(records: seq<string>, begin: nat, end: nat) returns (files: seq<ChangedFile>)
    requires begin <= end <= |records|
    ensures files == ParseRaw(records[begin..end])
  {
    files := [];
    var i := begin;
    while i < end
      invariant begin <= i <= end
      invariant files + ParseRaw(records[i..end]) == ParseRaw(records[begin..end])
    {
      var file, next := ReadEntry(records, i, end);
      Associate(files, file, ParseRaw(records[next..end]));
      files, i := files + file, next;
    }
  }

  // ----- how git writes them -----

  function Letter(kind: ChangeKind): char
    requires !kind.ModeChanged?
  {
    match kind
    case Modified => 'M'
    case Added => 'A'
    case Deleted => 'D'
    case Renamed => 'R'
    case Copied => 'C'
    case TypeChanged => 'T'
  }

  /** What a `--raw` entry can say: no blank in a mode or blob name, a score of at most three
      digits, an old path only for renames and copies. */
  predicate Writable(f: ChangedFile) {
    && !f.kind.ModeChanged? && f.similarity < 1000 && f.addedLines == f.removedLines == 0
    && ' ' !in f.oldMode && ' ' !in f.newMode && ' ' !in f.oldBlob && ' ' !in f.newBlob
    && (!TwoPaths(f.kind) ==> f.oldPath == "")
  }

  function Scored(n: nat): string
    requires n < 1000
  {
    [Digit(n / 100), Digit(n / 10 % 10), Digit(n % 10)]
  }

  /** The status letter; a score always follows for renames and copies. */
  function Status(f: ChangedFile): string
    requires Writable(f)
  {
    [Letter(f.kind)] + if TwoPaths(f.kind) || f.similarity != 0 then Scored(f.similarity) else []
  }

  /** The words with one blank between each two. */
  function Spaced(words: seq<string>): string
    requires words != []
  {
    if |words| == 1 then words[0] else words[0] + ([' '] + Spaced(words[1..]))
  }

  function MetaLine(f: ChangedFile): string
    requires Writable(f)
  {
    [':'] + Spaced([f.oldMode, f.newMode, f.oldBlob, f.newBlob, Status(f)])
  }

  /** A file's records, its metadata after some newlines. */
  function Written(f: ChangedFile, lead: string): seq<string>
    requires Writable(f)
  {
    [lead + MetaLine(f)] + if TwoPaths(f.kind) then [f.oldPath, f.path] else [f.path]
  }

  predicate AllWritable(fs: seq<ChangedFile>) {
    forall i :: 0 <= i < |fs| ==> Writable(fs[i])
  }

  predicate Newlines(s: string) {
    forall i :: 0 <= i < |s| ==> IsNewline(s[i])
  }

  /** The records of one commit; `git log` puts `lead` before the first. */
  function WrittenAll(fs: seq<ChangedFile>, lead: string): seq<string>
    requires AllWritable(fs)
  {
    if fs == [] then [] else Written(fs[0], lead) + WrittenAll(fs[1..], "")
  }

  // ----- parsing undoes writing -----

  lemma {:induction false} LeadDropped(lead: string, s: string)
    requires Newlines(lead) && s != [] && !IsNewline(s[0])
    ensures WithoutLead(lead + s) == s
  {
    if lead == [] {
      assert lead + s == s;
    } else {
      LeadDropped(lead[1..], s);
      assert (lead + s)[1..] == lead[1..] + s;
    }
  }

  lemma WordsAfter(w: string, rest: string)
    requires ' ' !in w
    ensures Words(w + ([' '] + rest)) == [w] + Words(rest)
  {
    FindAfter(w, ' ', rest);
    var s := w + ([' '] + rest);
    assert s[..|w|] == w && s[|w| + 1..] == rest;
  }

  lemma OneWord(w: string)
    requires w != [] && ' ' !in w
    ensures Words(w) == [w]
  {
    FindIs(w, ' ', 0, |w|);
  }

  lemma {:induction false} WordsOfSpaced(words: seq<string>)
    requires words != [] && words[|words| - 1] != ""
    requires forall i :: 0 <= i < |words| ==> ' ' !in words[i]
    ensures Words(Spaced(words)) == words
    decreases |words|
  {
    if |words| == 1 {
      OneWord(words[0]);
    } else {
      WordsOfSpaced(words[1..]);
      WordsAfter(words[0], Spaced(words[1..]));
    }
  }

  lemma ScoreOfScored(n: nat)
    requires n < 1000
    ensures Score(Scored(n)) == n
  {
    var a, b, c := Digit(n / 100), Digit(n / 10 % 10), Digit(n % 10);
    ScoreDigit([], n / 100);
    ScoreDigit([a], n / 10 % 10);
    ScoreDigit([a, b], n % 10);
    assert [] + [a] == [a] && [a] + [b] == [a, b] && [a, b] + [c] == [a, b, c];
    ThreeDigits(n);
  }

  lemma ThreeDigits(n: nat)
    ensures n == (n / 100 * 10 + n / 10 % 10) * 10 + n % 10
  {
    assert n / 10 == n / 100 * 10 + n / 10 % 10;
  }

  lemma ScoreDigit(s: string, d: nat)
    requires d < 10
    ensures Score(s + [Digit(d)]) == Score(s) * 10 + d
  {
    assert (s + [Digit(d)])[..|s|] == s;
  }

  lemma MetaWords(f: ChangedFile)
    requires Writable(f)
    ensures Words(MetaLine(f)[1..]) == [f.oldMode, f.newMode, f.oldBlob, f.newBlob, Status(f)]
  {
    var words := [f.oldMode, f.newMode, f.oldBlob, f.newBlob, Status(f)];
    assert MetaLine(f)[1..] == Spaced(words);
    WordsOfSpaced(words);
  }

  lemma StatusReadBack(f: ChangedFile)
    requires Writable(f)
    ensures KindForStatusLetter(Status(f)[0]) == f.kind
    ensures (if |Status(f)| > 1 then Score(Status(f)[1..]) else 0) == f.similarity
  {
    ScoreOfScored(f.similarity);
    if TwoPaths(f.kind) || f.similarity != 0 {
      assert Status(f)[1..] == Scored(f.similarity);
    }
  }

  lemma MetaReadBack(f: ChangedFile, lead: string)
    requires Writable(f) && Newlines(lead)
    ensures Meta(lead + MetaLine(f)) == Some(f.(path := "", oldPath := ""))
  {
    LeadDropped(lead, MetaLine(f));
    MetaWords(f);
    StatusReadBack(f);
  }

  lemma FileReadBack(f: ChangedFile, lead: string, rest: seq<string>)
    requires Writable(f) && Newlines(lead)
    ensures ParseRaw(Written(f, lead) + rest) == [f] + ParseRaw(rest)
  {
    MetaReadBack(f, lead);
    var rs := Written(f, lead) + rest;
    assert rs[|Written(f, lead)|..] == rest;
  }

  /** Fields that carry no metadata, such as the empty ones between commits, are skipped. */
  predicate Blank(rs: seq<string>) {
    forall i :: 0 <= i < |rs| ==> Newlines(rs[i])
  }

  lemma {:induction false} BlankIsSkipped(blank: seq<string>, rest: seq<string>)
    requires Blank(blank)
    ensures ParseRaw(blank + rest) == ParseRaw(rest)
  {
    if blank == [] {
      assert blank + rest == rest;
    } else {
      NewlinesDropped(blank[0]);
      BlankIsSkipped(blank[1..], rest);
      assert (blank + rest)[1..] == blank[1..] + rest;
    }
  }

  lemma {:induction false} NewlinesDropped(s: string)
    requires Newlines(s)
    ensures WithoutLead(s) == ""
  {
    if s != [] {
      NewlinesDropped(s[1..]);
    }
  }

  lemma {:induction false} FilesReadBack(fs: seq<ChangedFile>, lead: string, rest: seq<string>)
    requires AllWritable(fs) && Newlines(lead) && Blank(rest)
    ensures ParseRaw(WrittenAll(fs, lead) + rest) == fs
    decreases |fs|
  {
    if fs == [] {
      BlankIsSkipped(rest, []);
      assert rest + [] == rest && WrittenAll(fs, lead) + rest == rest;
    } else {
      FilesReadBack(fs[1..], "", rest);
      Associate(Written(fs[0], lead), WrittenAll(fs[1..], ""), rest);
      FileReadBack(fs[0], lead, WrittenAll(fs[1..], "") + rest);
    }
  }

  /** Parsing inverts writing for every list of changed files, renames and copies with their three
      records included. */
  lemma ParseInvertsWriting(fs: seq<ChangedFile>)
    requires AllWritable(fs)
    ensures ParseRaw(WrittenAll(fs, "")) == fs
  {
    FilesReadBack(fs, "", []);
    assert WrittenAll(fs, "") + [] == WrittenAll(fs, "");
  }

  // ----- the records letter by letter -----

  lemma StatusLetters(letter: char)
    ensures KindForStatusLetter('A') == Added && KindForStatusLetter('D') == Deleted
    ensures KindForStatusLetter('R') == Renamed && KindForStatusLetter('C') == Copied
    ensures KindForStatusLetter('T') == TypeChanged
    ensures letter !in {'A', 'D', 'R', 'C', 'T'} ==> KindForStatusLetter(letter) == Modified
  {
  }

  lemma ScoreExamples()
    ensures Score("") == 0 && Score("090") == 90 && Score("100") == 100
  {
    assert Scored(90) == "090" && Scored(100) == "100";
    ScoreOfScored(90);
    ScoreOfScored(100);
  }

  /** A metadata line in git's own words. */
  lemma MetaByFields(oldMode: string, newMode: string, oldBlob: string, newBlob: string, status: string)
    requires ' ' !in oldMode && ' ' !in newMode && ' ' !in oldBlob && ' ' !in newBlob
    requires status != "" && ' ' !in status
    ensures Meta(":" + oldMode + " " + newMode + " " + oldBlob + " " + newBlob + " " + status) ==
      Some(ChangedFile("", "", KindForStatusLetter(status[0]), oldMode, newMode, oldBlob, newBlob,
                       if |status| > 1 then Score(status[1..]) else 0, 0, 0))
  {
    var words := [oldMode, newMode, oldBlob, newBlob, status];
    var line := ":" + oldMode + " " + newMode + " " + oldBlob + " " + newBlob + " " + status;
    SpacedFive(oldMode, newMode, oldBlob, newBlob, status);
    assert line[0] == ':' && line[1..] == Spaced(words);
    WordsOfSpaced(words);
  }

  lemma SpacedFive(a: string, b: string, c: string, d: string, e: string)
    ensures ":" + a + " " + b + " " + c + " " + d + " " + e == ":" + Spaced([a, b, c, d, e])
  {
    var last2 := d + ([' '] + e);
    var last3 := c + ([' '] + last2);
    assert [a, b, c, d, e][1..] == [b, c, d, e] && [b, c, d, e][1..] == [c, d, e];
    assert [c, d, e][1..] == [d, e] && [d, e][1..] == [e];
    assert Spaced([d, e]) == last2;
    assert Spaced([c, d, e]) == last3;
    assert Spaced([b, c, d, e]) == b + ([' '] + last3);
    assert Spaced([a, b, c, d, e]) == a + ([' '] + (b + ([' '] + last3)));
    JoinFive(a, b, c, d, e);
  }

  lemma JoinFive(a: string, b: string, c: string, d: string, e: string)
    ensures ":" + a + " " + b + " " + c + " " + d + " " + e ==
      ":" + (a + ([' '] + (b + ([' '] + (c + ([' '] + (d + ([' '] + e))))))))
  {
    Associate(":" + a + " " + b + " " + c + " " + d, " ", e);
    Associate(":" + a + " " + b + " " + c + " ", d, [' '] + e);
    Associate(":" + a + " " + b + " " + c, " ", d + ([' '] + e));
    Associate(":" + a + " " + b + " ", c, [' '] + (d + ([' '] + e)));
    Associate(":" + a + " " + b, " ", c + ([' '] + (d + ([' '] + e))));
    Associate(":" + a + " ", b, [' '] + (c + ([' '] + (d + ([' '] + e)))));
    Associate(":" + a, " ", b + ([' '] + (c + ([' '] + (d + ([' '] + e))))));
    Associate(":", a, [' '] + (b + ([' '] + (c + ([' '] + (d + ([' '] + e)))))));
  }

  /** Two records for a change with one path; for a rename or copy three, the old path first. When the
      list ends too early, a rename takes the one path there is, and an entry without a path is
      dropped. */
  lemma EntryByFields(meta: string, f: ChangedFile, p: string, q: string, rest: seq<string>)
    requires Meta(meta) == Some(f)
    ensures !TwoPaths(f.kind) ==> ParseRaw([meta, p] + rest) == [f.(path := p)] + ParseRaw(rest)
    ensures TwoPaths(f.kind) ==> ParseRaw([meta, p, q] + rest) == [f.(oldPath := p, path := q)] + ParseRaw(rest)
    ensures TwoPaths(f.kind) ==> ParseRaw([meta, p]) == [f.(path := p)]
    ensures ParseRaw([meta]) == []
  {
    assert ([meta, p] + rest)[2..] == rest && ([meta, p, q] + rest)[3..] == rest;
    assert [meta, p][2..] == [];
  }

  /** A rename as git prints it. */
  lemma RenameExample()
    ensures ParseRaw([":100644 100755 aa bb R090", "old.txt", "new.txt"]) ==
      [ChangedFile("new.txt", "old.txt", Renamed, "100644", "100755", "aa", "bb", 90, 0, 0)]
  {
    var meta := ":" + "100644" + " " + "100755" + " " + "aa" + " " + "bb" + " " + "R090";
    assert meta == ":100644 100755 aa bb R090";
    MetaByFields("100644", "100755", "aa", "bb", "R090");
    assert "R090"[1..] == "090";
    ScoreExamples();
    var f := ChangedFile("", "", Renamed, "100644", "100755", "aa", "bb", 90, 0, 0);
    EntryByFields(meta, f, "old.txt", "new.txt", []);
    assert [meta, "old.txt", "new.txt"] + [] == [meta, "old.txt", "new.txt"];
  }
}
