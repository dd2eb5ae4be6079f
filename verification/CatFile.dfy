/**
  The client side of `git cat-file --batch` (src/core/git/CatFileBatch.cpp): one request, one
  answer, read from a pipe that may deliver it in any number of short reads and may end anywhere.

  `Exchange` says on a whole stream what one request makes of it. The methods do the same with
  short reads. `Record` and `Render` are the output format ("BATCH OUTPUT" in the git-cat-file
  manual), against which `Exchange` is shown to consume exactly one record or to poison.
*/
module CatFile {
  import opened Basics

  const MAX_LINE: nat := 65536
  const MAX_OBJECT: nat := 134217728
  const WORD: nat := 0x1_0000_0000_0000_0000

  datatype Outcome =
    | Object(oid: string, kind: string, content: string)
    | NotFound
    | AmbiguousName
    | TooLarge(size: nat)
    | IoError
    | ParseError
    | InvalidArgument
    | Cancelled
    | Timeout

  /** The outcome, how much of the stream was consumed, and whether the child must be replaced. */
  datatype Answer = Answer(outcome: Outcome, consumed: nat, poisoned: bool)

  // ----- what the header says -----

  predicate EndsWith(s: string, t: string) {
    |t| <= |s| && s[|s| - |t|..] == t
  }

  predicate HasSub(s: string, t: string) {
    t <= s || (s != [] && HasSub(s[1..], t))
  }

  function DigitValue(c: char): nat {
    if IsDigit(c) then c as nat - '0' as nat else 0
  }

  predicate AllDigits(s: string) {
    forall c :: c in s ==> IsDigit(c)
  }

  /** The size loop on a text of digits: decimal, in a 64-bit word. */
  function SizeOf(s: string): nat {
    if s == [] then 0 else (SizeOf(s[..|s| - 1]) * 10 + DigitValue(s[|s| - 1])) % WORD
  }

  datatype Header = IsMissing | IsAmbiguous | Malformed | Sized(oid: string, kind: string, sizeText: string)

  function ParseHeader(h: string): Header {
    if |h| > 8 && EndsWith(h, " missing") then IsMissing
    else if HasSub(h, " ambiguous") then IsAmbiguous
    else ParseSized(h)
  }

  function ParseSized(h: string): Header {
    var a := Find(h, ' ', 0);
    if a == |h| then Malformed
    else
      var b := Find(h, ' ', a + 1);
      if b == |h| || !AllDigits(h[b + 1..]) then Malformed
      else Sized(h[..a], h[a + 1..b], h[b + 1..])
  }

  // ----- one exchange, on the whole stream -----

  function Payload(oid: string, kind: string, size: nat, rest: string): Answer {
    if size > MAX_OBJECT then
      var drained := (size + 1) % WORD;
      Answer(TooLarge(size), drained, |rest| < drained)
    else if |rest| < size then Answer(IoError, 0, true)
    else if |rest| == size || rest[size] != '\n' then Answer(ParseError, 0, true)
    else Answer(Object(oid, kind, rest[..size]), size + 1, false)
  }

  function AnswerTo(h: string, rest: string): Answer {
    match ParseHeader(h)
    case IsMissing => Answer(NotFound, 0, false)
    case IsAmbiguous => Answer(AmbiguousName, 0, false)
    case Malformed => Answer(ParseError, 0, true)
    case Sized(oid, kind, sizeText) => Payload(oid, kind, SizeOf(sizeText), rest)
  }

  function Exchange(s: string): Answer {
    var n := Find(s, '\n', 0);
    if n == |s| || n > MAX_LINE then Answer(IoError, 0, true)
    else
      var a := AnswerTo(s[..n], s[n + 1..]);
      a.(consumed := n + 1 + a.consumed)
  }

  /** One whole request: the exchange if the request could be written, overruled by the watchdog. */
  function Attempt(exchange: Answer, written: bool, killed: bool): Answer {
    if killed then Answer(Timeout, 0, true) else if written then exchange else Answer(IoError, 0, true)
  }

  // ----- the same, with short reads -----

  /** The child's stdout: everything it will ever deliver, and how much has been read. */
  class Pipe {
    const data: string
    var pos: nat

    ghost predicate Valid()
      reads this
    {
      pos <= |data|
    }

    ghost function Rest(): string
      requires Valid()
      reads this
    {
      data[pos..]
    }

    constructor (data: string)
      ensures Valid() && Rest() == data
    {
      this.data, pos := data, 0;
      new;
      assert this.data[0..] == data;
    }

    /** Some bytes, at least one unless the stream has ended; which number is up to the system. */
    method ReadSome(count: nat) returns (chunk: string)
      requires Valid() && count > 0
      modifies this
      ensures Valid() && pos == old(pos) + |chunk| && |chunk| <= count
      ensures chunk == data[old(pos)..pos]
      ensures chunk == [] <==> old(pos) == |data|
    {
      var left := |data| - pos;
      var most := if count < left then count else left;
      var n: nat := most;
      if most > 1 {
        n :| 1 <= n <= most;
      }
      chunk := data[pos..pos + n];
      pos := pos + n;
    }

    method ReadExact(count: nat) returns (bytes: Option<string>)
      requires Valid()
      modifies this
      ensures Valid()
      ensures bytes.Some? <==> old(pos) + count <= |data|
      ensures bytes.Some? ==> pos == old(pos) + count && bytes.value == data[old(pos)..pos]
    {
      var out: string := [];
      while |out| < count
        invariant Valid() && |out| <= count
        invariant pos == old(pos) + |out| && out == data[old(pos)..pos]
      {
        ghost var before := pos;
        var chunk := ReadSome(count - |out|);
        if chunk == [] {
          return None;
        }
        SliceJoin(data, old(pos), before, pos);
        out := out + chunk;
      }
      return Some(out);
    }

    /** The header line, one byte at a time. */
    method ReadLine() returns (line: Option<string>)
      requires Valid()
      modifies this
      ensures Valid()
      ensures line.Some? <==> Find(old(Rest()), '\n', 0) < |old(Rest())| && Find(old(Rest()), '\n', 0) <= 65536
      ensures line.Some? ==>
        && |line.value| == Find(old(Rest()), '\n', 0)
        && pos == old(pos) + |line.value| + 1
        && line.value == data[old(pos)..pos - 1]
    {
      var out: string := [];
      ghost var all := Rest();
      ghost var n := Find(all, '\n', 0);
      while true
        invariant Valid() && |out| <= MAX_LINE && |out| <= n
        invariant pos == old(pos) + |out| && out == data[old(pos)..pos]
        decreases |data| - pos
      {
        ghost var before := pos;
        var c := ReadSome(1);
        if c == [] {
          return None;
        }
        SliceJoin(data, old(pos), before, pos);
        assert c[0] == all[|out|];
        if c[0] == '\n' {
          FindFirst(all, '\n', |out|);
          return Some(out);
        }
        FindFirst(all, '\n', |out|);
        out := out + c;
        if |out| > MAX_LINE {
          return None;
        }
      }
    }

    /** Discards `count` bytes in chunks. */
    method Drain(count: nat) returns (ok: bool)
      requires Valid()
      modifies this
      ensures Valid()
      ensures ok <==> old(pos) + count <= |data|
      ensures ok ==> pos == old(pos) + count
    {
      var remaining := count;
      while remaining > 0
        invariant Valid() && 0 <= remaining <= count && pos == old(pos) + count - remaining
      {
        var chunk := ReadSome(if remaining < 65536 then remaining else 65536);
        if chunk == [] {
          return false;
        }
        remaining := remaining - |chunk|;
      }
      return true;
    }
  }

  /** Up to the first occurrence nothing matches, and there it does. */
  lemma FindFirst(s: string, c: char, k: nat)
    requires k <= Find(s, c, 0) && k < |s|
    ensures s[k] == c <==> Find(s, c, 0) == k
  {
    if k < Find(s, c, 0) {
      FindSkips(s, c, 0, k);
    }
  }

  lemma {:induction false} SizePrefix(s: string, i: nat)
    requires i < |s| && AllDigits(s[..i + 1])
    ensures AllDigits(s[..i]) && SizeOf(s[..i + 1]) == (SizeOf(s[..i]) * 10 + DigitValue(s[i])) % WORD
  {
    assert s[..i + 1][..i] == s[..i];
    assert forall c :: c in s[..i] ==> c in s[..i + 1];
  }

  method ParseSize(s: string) returns (size: Option<nat>)
    ensures size.Some? <==> AllDigits(s)
    ensures size.Some? ==> size.value == SizeOf(s)
  {
    var n: nat := 0;
    for i := 0 to |s|
      invariant AllDigits(s[..i]) && n == SizeOf(s[..i])
    {
      if !IsDigit(s[i]) {
        return None;
      }
      assert s[..i + 1] == s[..i] + [s[i]];
      SizePrefix(s, i);
      n := (n * 10 + DigitValue(s[i])) % WORD;
    }
    assert s[..|s|] == s;
    return Some(n);
  }

  class CatFileBatch {
    var pipe: Pipe
    var poisoned: bool

    constructor (data: string)
      ensures pipe.Valid() && pipe.Rest() == data && !poisoned && fresh(pipe)
    {
      pipe := new Pipe(data);
      poisoned := false;
    }

    /** One request and its answer. `written` is whether the request reached the child's stdin. */
    method ExchangeLocked(written: bool) returns (outcome: Outcome)
      requires pipe.Valid() && !poisoned
      modifies this, pipe
      ensures pipe == old(pipe) && pipe.Valid()
      ensures !written ==> poisoned && outcome == IoError
      ensures written ==> var a := Exchange(old(pipe.Rest()));
        && outcome == a.outcome && poisoned == a.poisoned
        && (!poisoned ==> pipe.pos == old(pipe.pos) + a.consumed)
    {
      if !written {
        poisoned := true;
        return IoError;
      }
      var line := pipe.ReadLine();
      if line.None? {
        poisoned := true;
        return IoError;
      }
      var h := line.value;
      ghost var all := old(pipe.Rest());
      assert h == all[..|h|] && pipe.Rest() == all[|h| + 1..];
      outcome := AnswerHeader(h);
    }

    method AnswerHeader(h: string) returns (outcome: Outcome)
      requires pipe.Valid() && !poisoned
      modifies this, pipe
      ensures pipe == old(pipe) && pipe.Valid()
      ensures var a := AnswerTo(h, old(pipe.Rest()));
        && outcome == a.outcome && poisoned == a.poisoned
        && (!poisoned ==> pipe.pos == old(pipe.pos) + a.consumed)
    {
      if |h| > 8 && EndsWith(h, " missing") {
        return NotFound;
      }
      if HasSub(h, " ambiguous") {
        return AmbiguousName;
      }
      var a := Find(h, ' ', 0);
      if a == |h| {
        poisoned := true;
        return ParseError;
      }
      var b := Find(h, ' ', a + 1);
      if b == |h| {
        poisoned := true;
        return ParseError;
      }
      var parsed := ParseSize(h[b + 1..]);
      if parsed.None? {
        poisoned := true;
        return ParseError;
      }
      outcome := ReadPayload(h[..a], h[a + 1..b], parsed.value);
    }

    method ReadPayload(oid: string, kind: string, size: nat) returns (outcome: Outcome)
      requires pipe.Valid() && !poisoned
      modifies this, pipe
      ensures pipe == old(pipe) && pipe.Valid()
      ensures var a := Payload(oid, kind, size, old(pipe.Rest()));
        && outcome == a.outcome && poisoned == a.poisoned
        && (!poisoned ==> pipe.pos == old(pipe.pos) + a.consumed)
    {
      if size > MAX_OBJECT {
        var drained := pipe.Drain((size + 1) % WORD);
        poisoned := !drained;
        return TooLarge(size);
      }
      ghost var rest := pipe.Rest();
      var content := pipe.ReadExact(size);
      if content.None? {
        poisoned := true;
        return IoError;
      }
      var trailing := pipe.ReadExact(1);
      assert trailing.Some? ==> trailing.value == [rest[size]];
      if trailing.None? || trailing.value != "\n" {
        poisoned := true;
        return ParseError;
      }
      assert content.value == rest[..size];
      return Object(oid, kind, content.value);
    }

    /** Rejects what would not be one request, answers from the current child if it runs and can be
        trusted and otherwise from a fresh one, whose output is `next`. `killed` is what `disarm`
        reports: the watchdog has killed the child for this request. */
    method Read(revision: string, cancelled: bool, running: bool, written: bool, killed: bool, next: string)
      returns (outcome: Outcome)
      requires pipe.Valid()
      modifies this, pipe
      ensures pipe.Valid() && (pipe == old(pipe) || fresh(pipe))
      ensures revision == "" || '\n' in revision ==>
        outcome == InvalidArgument && unchanged(this) && unchanged(pipe)
      ensures revision != "" && '\n' !in revision && cancelled ==>
        outcome == Cancelled && unchanged(this) && unchanged(pipe)
      ensures revision != "" && '\n' !in revision && !cancelled ==>
        var from := if old(poisoned) || !running then next else old(pipe.Rest());
        var a := Attempt(Exchange(from), written, killed);
        && outcome == a.outcome && poisoned == a.poisoned
        && (!poisoned ==> a.consumed <= |from| && pipe.Rest() == from[a.consumed..])
    {
      if revision == "" || '\n' in revision {
        return InvalidArgument;
      }
      if cancelled {
        return Cancelled;
      }
      if !running || poisoned {
        pipe := new Pipe(next);
        poisoned := false;
      }
      outcome := ExchangeLocked(written);
      if killed {
        poisoned := true;
        return Timeout;
      }
    }
  }
}
