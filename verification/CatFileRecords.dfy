/** The output format of `git cat-file --batch`, and what a run of requests makes of it. */
module CatFileRecords {
  import opened Basics
  import opened CatFile

  /** One answer of the child. `sizeText` is the decimal size it prints for the payload. */
  datatype Record =
    | Missing(name: string)
    | Ambiguous(name: string)
    | Stored(oid: string, kind: string, sizeText: string, payload: string)

  function HeaderText(r: Record): string {
    match r
    case Missing(name) => name + " missing"
    case Ambiguous(name) => name + " ambiguous"
    case Stored(oid, kind, sizeText, _) => StoredText(oid, kind, sizeText)
  }

  function StoredText(oid: string, kind: string, sizeText: string): string {
    oid + ([' '] + (kind + ([' '] + sizeText)))
  }

  function Body(r: Record): string {
    if r.Stored? then r.payload + "\n" else ""
  }

  function Render(r: Record): string {
    HeaderText(r) + "\n" + Body(r)
  }

  predicate IsKind(kind: string) {
    kind == "blob" || kind == "tree" || kind == "commit" || kind == "tag"
  }

  /** What git prints: one header line the client is willing to read, names that cannot hold a
      newline, an object id without spaces, and a size that is the payload's and fits a word. */
  predicate Conforming(r: Record) {
    && '\n' !in HeaderText(r) && |HeaderText(r)| <= MAX_LINE
    && (r.Missing? ==> r.name != "")
    && (r.Stored? ==>
          && ' ' !in r.oid && IsKind(r.kind)
          && r.sizeText == Numeral(|r.payload|) && |r.payload| < WORD - 1)
  }

  /** What the caller is told about this record. */
  function OutcomeOf(r: Record): Outcome {
    match r
    case Missing(_) => NotFound
    case Ambiguous(_) => AmbiguousName
    case Stored(oid, kind, _, payload) =>
      if |payload| > MAX_OBJECT then TooLarge(|payload|) else Object(oid, kind, payload)
  }

  // ----- reading the header back -----

  lemma {:induction false} SizeOfNumeral(n: nat)
    requires n < WORD
    ensures AllDigits(Numeral(n)) && SizeOf(Numeral(n)) == n
  {
    if n >= 10 {
      SizeOfNumeral(n / 10);
      assert Numeral(n)[..|Numeral(n)| - 1] == Numeral(n / 10);
    } else {
      assert [Digit(n)][..0] == [];
    }
  }

  lemma {:induction false} NoSub(s: string, t: string)
    requires |t| > 1 && forall i :: 0 <= i < |s| - 1 ==> s[i] != t[0] || s[i + 1] != t[1]
    ensures !HasSub(s, t)
  {
    assert !(t <= s) by {
      if |t| <= |s| {
        assert s[..|t|][0] == s[0] && s[..|t|][1] == s[1];
      }
    }
    if s != [] {
      NoSub(s[1..], t);
    }
  }

  lemma LastCharDecides(s: string, t: string)
    requires s != [] && t != [] && s[|s| - 1] != t[|t| - 1]
    ensures !EndsWith(s, t)
  {
    if |t| <= |s| {
      assert s[|s| - |t|..][|t| - 1] == s[|s| - 1];
    }
  }

  lemma {:induction false} HasSubAtEnd(a: string, t: string)
    ensures HasSub(a + t, t)
  {
    if a == [] {
      assert a + t == t;
    } else {
      HasSubAtEnd(a[1..], t);
      assert (a + t)[1..] == a[1..] + t;
    }
  }

  lemma MissingHeader(name: string)
    requires name != ""
    ensures ParseHeader(name + " missing") == IsMissing
  {
    var h := name + " missing";
    assert h[|h| - 8..] == " missing";
  }

  lemma AmbiguousHeader(name: string)
    ensures ParseHeader(name + " ambiguous") == IsAmbiguous
  {
    HasSubAtEnd(name, " ambiguous");
    LastCharDecides(name + " ambiguous", " missing");
  }

  lemma NoSpaceBeforeA(oid: string, kind: string, sizeText: string, i: nat)
    requires ' ' !in oid && IsKind(kind) && AllDigits(sizeText)
    requires i + 1 < |StoredText(oid, kind, sizeText)|
    ensures var h := StoredText(oid, kind, sizeText); h[i] != ' ' || h[i + 1] != 'a'
  {
    var h := StoredText(oid, kind, sizeText);
    var b := |oid| + 1 + |kind|;
    if i < |oid| {
      assert h[i] == oid[i] && oid[i] in oid;
    } else if i == |oid| {
      assert h[i + 1] == kind[0];
    } else if i < b {
      assert h[i] == kind[i - |oid| - 1];
    } else {
      assert h[i + 1] == sizeText[i - b] && sizeText[i - b] in sizeText;
    }
  }

  lemma StoredHeaderIsPlain(oid: string, kind: string, sizeText: string)
    requires ' ' !in oid && IsKind(kind) && sizeText != "" && AllDigits(sizeText)
    ensures var h := StoredText(oid, kind, sizeText); !EndsWith(h, " missing") && !HasSub(h, " ambiguous")
  {
    var h := StoredText(oid, kind, sizeText);
    assert h[|h| - 1] == sizeText[|sizeText| - 1] && sizeText[|sizeText| - 1] in sizeText;
    LastCharDecides(h, " missing");
    forall i | 0 <= i < |h| - 1
      ensures h[i] != ' ' || h[i + 1] != 'a'
    {
      NoSpaceBeforeA(oid, kind, sizeText, i);
    }
    NoSub(h, " ambiguous");
  }

  lemma StoredHeaderBlanks(oid: string, after: string, kind: string, sizeText: string)
    requires ' ' !in oid && ' ' !in kind && after == kind + ([' '] + sizeText)
    ensures var h := oid + ([' '] + after);
      && Find(h, ' ', 0) == |oid| && Find(h, ' ', |oid| + 1) == |oid| + 1 + |kind|
      && h[..|oid|] == oid && h[|oid| + 1..] == after
  {
    var h := oid + ([' '] + after);
    FindAfter(oid, ' ', after);
    FindAfter(kind, ' ', sizeText);
    SidesOf(oid, ' ', after);
    FindShift(h, ' ', |oid| + 1);
  }

  lemma StoredHeaderSplits(oid: string, kind: string, sizeText: string)
    requires ' ' !in oid && ' ' !in kind
    ensures var h, b := StoredText(oid, kind, sizeText), |oid| + 1 + |kind|;
      && Find(h, ' ', 0) == |oid| && Find(h, ' ', |oid| + 1) == b < |h|
      && h[..|oid|] == oid && h[|oid| + 1..b] == kind && h[b + 1..] == sizeText
  {
    var h, b, after := StoredText(oid, kind, sizeText), |oid| + 1 + |kind|, kind + ([' '] + sizeText);
    StoredHeaderBlanks(oid, after, kind, sizeText);
    assert after[..|kind|] == kind && after[|kind| + 1..] == sizeText;
    assert h[|oid| + 1..][..|kind|] == h[|oid| + 1..b] && h[|oid| + 1..][|kind| + 1..] == h[b + 1..];
  }

  lemma KindIsOneWord(kind: string)
    requires IsKind(kind)
    ensures ' ' !in kind
  {
  }

  lemma SizedHeader(oid: string, kind: string, sizeText: string)
    requires ' ' !in oid && ' ' !in kind && AllDigits(sizeText)
    ensures ParseSized(StoredText(oid, kind, sizeText)) == Sized(oid, kind, sizeText)
  {
    StoredHeaderSplits(oid, kind, sizeText);
  }

  lemma PlainHeader(h: string)
    requires !EndsWith(h, " missing") && !HasSub(h, " ambiguous")
    ensures ParseHeader(h) == ParseSized(h)
  {
  }

  lemma StoredHeader(oid: string, kind: string, sizeText: string)
    requires ' ' !in oid && IsKind(kind) && sizeText != "" && AllDigits(sizeText)
    ensures ParseHeader(StoredText(oid, kind, sizeText)) == Sized(oid, kind, sizeText)
  {
    KindIsOneWord(kind);
    StoredHeaderIsPlain(oid, kind, sizeText);
    PlainHeader(StoredText(oid, kind, sizeText));
    SizedHeader(oid, kind, sizeText);
  }

  lemma HeaderReadsBack(r: Record, rest: string)
    requires Conforming(r)
    ensures AnswerTo(HeaderText(r), rest) == match r
      case Missing(_) => Answer(NotFound, 0, false)
      case Ambiguous(_) => Answer(AmbiguousName, 0, false)
      case Stored(oid, kind, _, payload) => Payload(oid, kind, |payload|, rest)
  {
    match r
    case Missing(name) => MissingHeader(name);
    case Ambiguous(name) => AmbiguousHeader(name);
    case Stored(oid, kind, sizeText, payload) =>
      SizeOfNumeral(|payload|);
      StoredHeader(oid, kind, sizeText);
  }

  lemma ExchangeSplits(h: string, rest: string)
    requires '\n' !in h && |h| <= MAX_LINE
    ensures var a := AnswerTo(h, rest);
      Exchange(h + "\n" + rest) == a.(consumed := |h| + 1 + a.consumed)
  {
    var s := h + ['\n'] + rest;
    Associate(h, ['\n'], rest);
    FindAfter(h, '\n', rest);
    assert s[..|h|] == h && s[|h| + 1..] == rest;
  }

  lemma PayloadWhole(oid: string, kind: string, payload: string, rest: string)
    requires |payload| < WORD - 1
    ensures Payload(oid, kind, |payload|, payload + "\n" + rest) ==
      Answer(OutcomeOf(Stored(oid, kind, "", payload)), |payload| + 1, false)
  {
    var s := payload + "\n" + rest;
    assert s[..|payload|] == payload && s[|payload|] == '\n';
  }

  /** A whole record, whatever follows it: the client reports it, consumes exactly it, and keeps
      the child. */
  lemma WholeRecord(r: Record, rest: string)
    requires Conforming(r)
    ensures Exchange(Render(r) + rest) == Answer(OutcomeOf(r), |Render(r)|, false)
  {
    var h, tail := HeaderText(r), Body(r) + rest;
    assert Render(r) + rest == h + "\n" + tail;
    ExchangeSplits(h, tail);
    HeaderReadsBack(r, tail);
    if r.Stored? {
      PayloadWhole(r.oid, r.kind, r.payload, rest);
    }
  }

  lemma CutInHeader(r: Record, t: string)
    requires Conforming(r) && t < Render(r) && |t| <= |HeaderText(r)|
    ensures Exchange(t) == Answer(IoError, 0, true)
  {
    var h := HeaderText(r);
    assert t == Render(r)[..|t|] == h[..|t|];
    assert forall c :: c in t ==> c in h;
    FindIs(t, '\n', 0, |t|);
  }

  lemma PayloadCut(oid: string, kind: string, n: nat, u: string)
    requires |u| <= n < WORD - 1
    ensures var a := Payload(oid, kind, n, u);
      a.poisoned && (a.outcome == IoError || a.outcome == ParseError || (n > MAX_OBJECT && a.outcome == TooLarge(n)))
  {
  }

  lemma CutInBody(r: Record, u: string)
    requires Conforming(r) && u < Body(r)
    ensures var a := Exchange(HeaderText(r) + "\n" + u);
      a.poisoned && (a.outcome == IoError || a.outcome == ParseError || a.outcome == OutcomeOf(r))
  {
    ExchangeSplits(HeaderText(r), u);
    HeaderReadsBack(r, u);
    assert r.Stored? && |u| <= |r.payload|;
    PayloadCut(r.oid, r.kind, |r.payload|, u);
  }

  /** A record cut short anywhere: the client replaces the child, and claims at most that the
      object was too large. */
  lemma CutRecord(r: Record, t: string)
    requires Conforming(r) && t < Render(r)
    ensures var a := Exchange(t);
      a.poisoned && (a.outcome == IoError || a.outcome == ParseError || a.outcome == OutcomeOf(r))
  {
    var h := HeaderText(r);
    if |t| <= |h| {
      CutInHeader(r, t);
    } else {
      var u := t[|h| + 1..];
      assert t == Render(r)[..|t|];
      assert t == h + "\n" + u;
      assert u == Body(r)[..|u|];
      CutInBody(r, u);
    }
  }

  // ----- runs of requests -----

  /** What a child prints that is asked for these records in turn. */
  function Stream(rs: seq<Record>): string {
    if rs == [] then "" else Render(rs[0]) + Stream(rs[1..])
  }

  function Take(s: string, n: nat): string {
    if n < |s| then s[..n] else s
  }

  predicate AllConform(rs: seq<Record>) {
    forall i :: 0 <= i < |rs| ==> Conforming(rs[i])
  }

  /** What answer `a` to the first of these requests says when the child delivers `n` bytes: the
      child is kept exactly when the first record is there in full, the answer is then its own and
      the stream stands at the next record; and a poisoned answer claims nothing of another one. */
  predicate Belongs(a: Answer, rs: seq<Record>, n: nat)
    requires rs != []
  {
    var s := Take(Stream(rs), n);
    && (!a.poisoned <==> |Render(rs[0])| <= n)
    && (!a.poisoned ==> a.outcome == OutcomeOf(rs[0]) && a.consumed == |Render(rs[0])| <= |s|
                        && s[a.consumed..] == Take(Stream(rs[1..]), n - a.consumed))
    && (a.poisoned ==> a.outcome == IoError || a.outcome == ParseError || a.outcome == OutcomeOf(rs[0]))
  }

  lemma TakeWhole(first: string, later: string, n: nat)
    requires |first| <= n
    ensures var s := Take(first + later, n);
      s == first + Take(later, n - |first|) && s[|first|..] == Take(later, n - |first|)
  {
  }

  lemma TakeCut(first: string, later: string, n: nat)
    requires n < |first|
    ensures Take(first + later, n) == first[..n] && first[..n] < first
  {
  }

  lemma WholeBelongs(rs: seq<Record>, n: nat)
    requires rs != [] && AllConform(rs) && |Render(rs[0])| <= n
    ensures Belongs(Exchange(Take(Stream(rs), n)), rs, n)
  {
    var first, later := Render(rs[0]), Stream(rs[1..]);
    TakeWhole(first, later, n);
    WholeRecord(rs[0], Take(later, n - |first|));
  }

  lemma CutBelongs(rs: seq<Record>, n: nat)
    requires rs != [] && AllConform(rs) && n < |Render(rs[0])|
    ensures Belongs(Exchange(Take(Stream(rs), n)), rs, n)
  {
    TakeCut(Render(rs[0]), Stream(rs[1..]), n);
    CutRecord(rs[0], Render(rs[0])[..n]);
  }

  /** Every conforming or truncated output is consumed record by record. */
  lemma OneRecordOrPoison(rs: seq<Record>, n: nat)
    requires rs != [] && AllConform(rs)
    ensures Belongs(Exchange(Take(Stream(rs), n)), rs, n)
  {
    if |Render(rs[0])| <= n {
      WholeBelongs(rs, n);
    } else {
      CutBelongs(rs, n);
    }
  }

  // ----- the answers letter by letter -----

  lemma MissingByLetters(name: string, rest: string)
    requires name != "" && '\n' !in name && |name| + 8 <= MAX_LINE
    ensures Exchange(name + " missing\n" + rest) == Answer(NotFound, |name| + 9, false)
  {
    var r := Missing(name);
    assert HeaderText(r) == name + " missing";
    assert Render(r) + rest == name + " missing\n" + rest && |Render(r)| == |name| + 9;
    WholeRecord(r, rest);
  }

  lemma AmbiguousByLetters(name: string, rest: string)
    requires '\n' !in name && |name| + 10 <= MAX_LINE
    ensures Exchange(name + " ambiguous\n" + rest) == Answer(AmbiguousName, |name| + 11, false)
  {
    var r := Ambiguous(name);
    assert HeaderText(r) == name + " ambiguous";
    assert Render(r) + rest == name + " ambiguous\n" + rest && |Render(r)| == |name| + 11;
    WholeRecord(r, rest);
  }

  /** An object with its header, content and terminator: the content comes back under its own name and
      kind, or only its size when it is over the limit; either way all of it is consumed. */
  lemma ObjectByLetters(oid: string, kind: string, content: string, rest: string)
    requires ' ' !in oid && '\n' !in oid && kind in {"blob", "tree", "commit", "tag"}
    requires |content| < WORD - 1 && |oid + " " + kind + " " + Numeral(|content|)| <= MAX_LINE
    ensures var header := oid + " " + kind + " " + Numeral(|content|);
      Exchange(header + "\n" + content + "\n" + rest) ==
        Answer(if |content| > 134217728 then TooLarge(|content|) else Object(oid, kind, content),
               |header| + |content| + 2, false)
  {
    var r := Stored(oid, kind, Numeral(|content|), content);
    var header := oid + " " + kind + " " + Numeral(|content|);
    assert HeaderText(r) == header;
    ObjectHeaderIsOneLine(oid, kind, |content|);
    assert Render(r) + rest == header + "\n" + content + "\n" + rest;
    WholeRecord(r, rest);
  }

  lemma ObjectHeaderIsOneLine(oid: string, kind: string, n: nat)
    requires '\n' !in oid && IsKind(kind)
    ensures '\n' !in StoredText(oid, kind, Numeral(n))
  {
    assert '\n' !in kind;
    forall c | c in Numeral(n) ensures c != '\n' {
      var i :| 0 <= i < |Numeral(n)| && Numeral(n)[i] == c;
      assert IsDigit(Numeral(n)[i]);
    }
  }
}
