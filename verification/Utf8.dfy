/**
  UTF-8 repair and bounded truncation (src/core/base/ExceptionDiagnostic.cpp), against the grammar
  in section 4 of RFC 3629.
*/
module Utf8 {
  import opened Basics

  type Byte = b: int | 0 <= b < 256

  const MAX_SUMMARY: nat := 2048
  const QUESTION: Byte := 0x3F

  // ----- section 4 of RFC 3629 -----

  predicate Tail(b: Byte) {
    0x80 <= b <= 0xBF
  }

  /** One UTF8-char of the grammar. */
  predicate IsChar(c: seq<Byte>) {
    match |c|
    case 1 => c[0] <= 0x7F
    case 2 => 0xC2 <= c[0] <= 0xDF && Tail(c[1])
    case 3 =>
      && Tail(c[2])
      && (|| (c[0] == 0xE0 && 0xA0 <= c[1] <= 0xBF)
          || (0xE1 <= c[0] <= 0xEC && Tail(c[1]))
          || (c[0] == 0xED && 0x80 <= c[1] <= 0x9F)
          || (0xEE <= c[0] <= 0xEF && Tail(c[1])))
    case 4 =>
      && Tail(c[2]) && Tail(c[3])
      && (|| (c[0] == 0xF0 && 0x90 <= c[1] <= 0xBF)
          || (0xF1 <= c[0] <= 0xF3 && Tail(c[1]))
          || (c[0] == 0xF4 && 0x80 <= c[1] <= 0x8F))
    case _ => false
  }

  function Flatten(chars: seq<seq<Byte>>): seq<Byte> {
    if chars == [] then [] else chars[0] + Flatten(chars[1..])
  }

  ghost predicate AreChars(chars: seq<seq<Byte>>) {
    forall i :: 0 <= i < |chars| ==> IsChar(chars[i])
  }

  /** UTF8-octets: any sequence of characters. */
  ghost predicate WellFormed(s: seq<Byte>) {
    exists chars :: AreChars(chars) && Flatten(chars) == s
  }

  // ----- recognising one character -----

  /** The sequence length a lead byte announces and the range its second byte must be in. */
  datatype Lead = Lead(length: nat, low: Byte, high: Byte)

  function LeadOf(b: Byte): Lead {
    if b <= 0x7F then Lead(1, 0x80, 0xBF)
    else if 0xC2 <= b <= 0xDF then Lead(2, 0x80, 0xBF)
    else if 0xE0 <= b <= 0xEF then Lead(3, if b == 0xE0 then 0xA0 else 0x80, if b == 0xED then 0x9F else 0xBF)
    else if 0xF0 <= b <= 0xF4 then Lead(4, if b == 0xF0 then 0x90 else 0x80, if b == 0xF4 then 0x8F else 0xBF)
    else Lead(0, 0x80, 0xBF)
  }

  /** The length at `index` is n > 0 exactly when the n bytes there are one character of the
      grammar, and 0 exactly when no prefix of the rest is. */
  method SequenceLength(text: seq<Byte>, index: nat) returns (length: nat)
    requires index < |text|
    ensures length == CharLength(text[index..])
  {
    var rest := text[index..];
    CharLengthSpec(rest);
    var lead := LeadOf(text[index]);
    if lead.length <= 1 {
      return lead.length;
    }
    if index + lead.length > |text| || text[index + 1] < lead.low || text[index + 1] > lead.high {
      return 0;
    }
    for i := 2 to lead.length
      invariant forall j :: 2 <= j < i ==> Tail(rest[j])
    {
      assert rest[i] == text[index + i];
      if text[index + i] < 0x80 || text[index + i] > 0xBF {
        return 0;
      }
    }
    return lead.length;
  }

  /** The length of the character `s` starts with, or 0. */
  ghost function CharLength(s: seq<Byte>): (n: nat)
    ensures n <= 4 && n <= |s|
  {
    if |s| >= 1 && IsChar(s[..1]) then 1
    else if |s| >= 2 && IsChar(s[..2]) then 2
    else if |s| >= 3 && IsChar(s[..3]) then 3
    else if |s| >= 4 && IsChar(s[..4]) then 4
    else 0
  }

  /** No character is a prefix of another, so the lead byte decides. */
  lemma CharLengthSpec(s: seq<Byte>)
    requires s != []
    ensures var lead := LeadOf(s[0]);
      var n := lead.length;
      CharLength(s) ==
        if n <= 1 then n
        else if |s| < n || s[1] < lead.low || s[1] > lead.high then 0
        else if (n > 2 && !Tail(s[2])) || (n > 3 && !Tail(s[3])) then 0
        else n
  {
  }

  lemma CharStarts(c: seq<Byte>, rest: seq<Byte>)
    requires IsChar(c)
    ensures CharLength(c + rest) == |c| && (c + rest)[..|c|] == c && (c + rest)[|c|..] == rest
  {
    assert (c + rest)[..|c|] == c;
    CharLengthSpec(c + rest);
  }

  // ----- repair -----

  ghost function Repaired(s: seq<Byte>): seq<Byte>
    decreases |s|
  {
    if s == [] then []
    else if CharLength(s) == 0 then [QUESTION] + Repaired(s[1..])
    else s[..CharLength(s)] + Repaired(s[CharLength(s)..])
  }

  lemma RepairStep(text: seq<Byte>, index: nat)
    requires index < |text|
    ensures var n := CharLength(text[index..]);
      Repaired(text[index..]) ==
        if n == 0 then [QUESTION] + Repaired(text[index + 1..])
        else text[index..index + n] + Repaired(text[index + n..])
  {
    var rest := text[index..];
    var n := CharLength(rest);
    assert rest[1..] == text[index + 1..];
    assert rest[..n] == text[index..index + n] && rest[n..] == text[index + n..];
  }

  method ValidUtf8(text: seq<Byte>) returns (out: seq<Byte>)
    ensures out == Repaired(text)
  {
    out := [];
    var index := 0;
    assert text[0..] == text;
    while index < |text|
      invariant index <= |text|
      invariant Repaired(text) == out + Repaired(text[index..])
    {
      var length := SequenceLength(text, index);
      RepairStep(text, index);
      var next: seq<Byte> := if length == 0 then [QUESTION] else text[index..index + length];
      index := if length == 0 then index + 1 else index + length;
      Associate(out, next, Repaired(text[index..]));
      out := out + next;
    }
    assert text[index..] == [];
  }

  lemma WellFormedPrepend(c: seq<Byte>, s: seq<Byte>)
    requires IsChar(c) && WellFormed(s)
    ensures WellFormed(c + s)
  {
    var chars :| AreChars(chars) && Flatten(chars) == s;
    assert AreChars([c] + chars) && Flatten([c] + chars) == c + s;
  }

  /** Whatever the bytes, the repaired text is well-formed. */
  lemma {:induction false} RepairedIsWellFormed(s: seq<Byte>)
    ensures WellFormed(Repaired(s))
    decreases |s|
  {
    if s == [] {
      assert AreChars([]) && Flatten([]) == [];
    } else if CharLength(s) == 0 {
      RepairedIsWellFormed(s[1..]);
      WellFormedPrepend([QUESTION], Repaired(s[1..]));
    } else {
      var n := CharLength(s);
      RepairedIsWellFormed(s[n..]);
      WellFormedPrepend(s[..n], Repaired(s[n..]));
    }
  }

  lemma {:induction false} RepairKeepsChars(chars: seq<seq<Byte>>)
    requires AreChars(chars)
    ensures Repaired(Flatten(chars)) == Flatten(chars)
    decreases |chars|
  {
    if chars != [] {
      CharStarts(chars[0], Flatten(chars[1..]));
      RepairKeepsChars(chars[1..]);
    }
  }

  /** Well-formed text is left alone, so repairing twice is repairing once. */
  lemma RepairKeepsWellFormed(s: seq<Byte>)
    ensures WellFormed(s) <==> Repaired(s) == s
    ensures Repaired(Repaired(s)) == Repaired(s)
  {
    RepairedIsWellFormed(s);
    if WellFormed(s) {
      var chars :| AreChars(chars) && Flatten(chars) == s;
      RepairKeepsChars(chars);
    }
    var fixed :| AreChars(fixed) && Flatten(fixed) == Repaired(s);
    RepairKeepsChars(fixed);
  }

  // ----- truncation -----

  lemma FlattenFirst(chars: seq<seq<Byte>>, k: nat)
    requires 0 < k <= |chars|
    ensures Flatten(chars[..k]) == chars[0] + Flatten(chars[1..][..k - 1])
  {
    assert chars[..k][1..] == chars[1..][..k - 1] && chars[..k][0] == chars[0];
  }

  /** Character `k` starts at position `at`. */
  ghost predicate StartsAt(chars: seq<seq<Byte>>, k: nat, at: nat) {
    && k < |chars| && at + |chars[k]| <= |Flatten(chars)|
    && Flatten(chars[..k]) == Flatten(chars)[..at]
    && Flatten(chars)[at..at + |chars[k]|] == chars[k]
  }

  lemma StartsLater(chars: seq<seq<Byte>>, k: nat, at: nat)
    requires chars != [] && StartsAt(chars[1..], k, at)
    ensures StartsAt(chars, k + 1, |chars[0]| + at)
  {
    var c, rest := chars[0], Flatten(chars[1..]);
    FlattenFirst(chars, k + 1);
    PrefixOfAppend(c, rest, at);
    SliceOfAppend(c, rest, at, at + |chars[k + 1]|);
  }

  /** Characters that end by position `end`, and where the last of them ends. */
  lemma {:induction false} CutPoint(chars: seq<seq<Byte>>, end: nat) returns (k: nat, at: nat)
    requires AreChars(chars) && end < |Flatten(chars)|
    ensures StartsAt(chars, k, at) && at <= end < at + |chars[k]|
    decreases |chars|
  {
    var c := chars[0];
    if end < |c| {
      k, at := 0, 0;
      assert chars[..0] == [] && Flatten(chars)[..|c|] == c;
    } else {
      k, at := CutPoint(chars[1..], end - |c|);
      StartsLater(chars, k, at);
      k, at := k + 1, |c| + at;
    }
  }

  method ScreenSummary(text: seq<Byte>) returns (summary: seq<Byte>)
    ensures summary <= Repaired(text) && WellFormed(summary)
    ensures |text| <= 2048 ==> summary == Repaired(text)
    ensures |text| > 2048 ==> 2045 <= |summary| <= 2048
  {
    summary := ValidUtf8(text);
    RepairedIsWellFormed(text);
    if text != [] {
      RepairByteByByte(text, 0);
    }
    if |summary| > MAX_SUMMARY {
      ghost var chars :| AreChars(chars) && Flatten(chars) == summary;
      ghost var k, at := CutPoint(chars, MAX_SUMMARY);
      var end := MAX_SUMMARY;
      while end > 0 && Tail(summary[end])
        invariant at <= end <= MAX_SUMMARY < |summary|
      {
        LeadIsNoTail(chars[k]);
        assert summary[at..at + |chars[k]|][0] == summary[at];
        end := end - 1;
      }
      CutAtLead(chars[k], summary, at, end);
      assert AreChars(chars[..k]);
      summary := summary[..end];
    }
  }

  lemma LeadIsNoTail(c: seq<Byte>)
    requires IsChar(c)
    ensures !Tail(c[0]) && |c| <= 4 && forall i :: 0 < i < |c| ==> Tail(c[i])
  {
  }

  /** Inside one character only its first byte stops the loop. */
  lemma CutAtLead(c: seq<Byte>, s: seq<Byte>, at: nat, end: nat)
    requires IsChar(c) && at <= end < at + |c| <= |s| && s[at..at + |c|] == c
    requires end == 0 || !Tail(s[end])
    ensures end == at
  {
    LeadIsNoTail(c);
    assert s[end] == c[end - at];
  }

  // ----- what becomes of each byte -----

  /** The byte at `i` is part of a character of the text. */
  ghost predicate InCharacter(s: seq<Byte>, i: nat) {
    exists a: nat, b: nat :: a <= i < b <= |s| && IsChar(s[a..b])
  }

  /** The length of a character at the start is its only possible one. */
  lemma CharAtStart(s: seq<Byte>, b: nat)
    requires b <= |s| && IsChar(s[..b])
    ensures CharLength(s) == b
  {
    assert s[..b] + s[b..] == s;
    CharStarts(s[..b], s[b..]);
  }

  lemma TailInside(s: seq<Byte>, n: nat, a: nat)
    requires 0 < a < n <= |s| && IsChar(s[..n])
    ensures Tail(s[a])
  {
    LeadIsNoTail(s[..n]);
    assert s[..n][a] == s[a];
  }

  /** A character that starts after the first byte does not start inside the first character. */
  lemma CharsDoNotOverlap(s: seq<Byte>, a: nat, b: nat)
    requires 0 < a < b <= |s| && IsChar(s[a..b])
    ensures CharLength(s) <= a
  {
    LeadIsNoTail(s[a..b]);
    assert s[a..b][0] == s[a];
    if CharLength(s) > a {
      TailInside(s, CharLength(s), a);
    }
  }

  /** Where the walk through the text goes on after its first step. */
  ghost function FirstStep(s: seq<Byte>): nat {
    if CharLength(s) == 0 then 1 else CharLength(s)
  }

  lemma InRestIfIn(s: seq<Byte>, i: nat)
    requires FirstStep(s) <= i < |s| && InCharacter(s, i)
    ensures InCharacter(s[FirstStep(s)..], i - FirstStep(s))
  {
    var m := FirstStep(s);
    var a: nat, b: nat :| a <= i < b <= |s| && IsChar(s[a..b]);
    if a == 0 {
      assert s[a..b] == s[..b];
      CharAtStart(s, b);
    } else {
      CharsDoNotOverlap(s, a, b);
      SliceOfTail(s, m, a - m, b - m);
    }
  }

  lemma InIfInRest(s: seq<Byte>, m: nat, i: nat)
    requires m <= i < |s| && InCharacter(s[m..], i - m)
    ensures InCharacter(s, i)
  {
    var a: nat, b: nat :| a <= i - m < b <= |s[m..]| && IsChar(s[m..][a..b]);
    SliceOfTail(s, m, a, b);
  }

  lemma RepairBegins(s: seq<Byte>)
    requires s != []
    ensures FirstStep(s) <= |s|
    ensures Repaired(s) == (if CharLength(s) == 0 then [0x3F] else s[..CharLength(s)]) + Repaired(s[FirstStep(s)..])
  {
  }

  lemma ByteOfFirst(s: seq<Byte>, i: nat)
    requires s != [] && i < FirstStep(s) && |Repaired(s[FirstStep(s)..])| == |s| - FirstStep(s)
    ensures |Repaired(s)| == |s| && Repaired(s)[i] == if InCharacter(s, i) then s[i] else 0x3F
  {
    RepairBegins(s);
    var n := CharLength(s);
    if n > 0 {
      assert s[0..n] == s[..n];
      assert InCharacter(s, i);
    } else {
      FirstByteAlone(s);
    }
  }

  lemma ByteOfRest(s: seq<Byte>, i: nat)
    requires s != [] && FirstStep(s) <= i < |s|
    requires var rest, j := s[FirstStep(s)..], i - FirstStep(s);
      |Repaired(rest)| == |rest| && Repaired(rest)[j] == if InCharacter(rest, j) then rest[j] else 0x3F
    ensures |Repaired(s)| == |s| && Repaired(s)[i] == if InCharacter(s, i) then s[i] else 0x3F
  {
    RepairBegins(s);
    var m := FirstStep(s);
    if InCharacter(s, i) {
      InRestIfIn(s, i);
    } else if InCharacter(s[m..], i - m) {
      InIfInRest(s, m, i);
    }
  }

  lemma {:induction false} RepairKeepsLength(s: seq<Byte>)
    ensures |Repaired(s)| == |s|
    decreases |s|
  {
    if s != [] {
      RepairBegins(s);
      RepairKeepsLength(s[FirstStep(s)..]);
    }
  }

  /** Repair keeps the length, every byte that is part of a character, and puts 0x3F in the place of
      every other byte. */
  lemma {:induction false} RepairByteByByte(s: seq<Byte>, i: nat)
    requires i < |s|
    ensures |Repaired(s)| == |s| && Repaired(s)[i] == if InCharacter(s, i) then s[i] else 0x3F
    decreases |s|
  {
    RepairBegins(s);
    var m := FirstStep(s);
    RepairKeepsLength(s[m..]);
    if i < m {
      ByteOfFirst(s, i);
    } else {
      RepairByteByByte(s[m..], i - m);
      ByteOfRest(s, i);
    }
  }

  lemma FirstByteAlone(s: seq<Byte>)
    requires s != [] && CharLength(s) == 0
    ensures !InCharacter(s, 0)
  {
    forall a: nat, b: nat | a <= 0 < b <= |s|
      ensures !IsChar(s[a..b])
    {
      if IsChar(s[a..b]) {
        assert s[a..b] == s[..b];
        CharAtStart(s, b);
      }
    }
  }

  // ----- the grammar is that of the encoded scalar values -----

  /** A Unicode scalar value: a code point that is no surrogate. */
  predicate IsScalar(u: int) {
    0 <= u < 0xD800 || 0xE000 <= u < 0x110000
  }

  /** Section 3 of RFC 3629: the bits in groups of six behind a lead byte. */
  function Encode(u: int): seq<Byte>
    requires IsScalar(u)
  {
    if u < 0x80 then [u]
    else if u < 0x800 then [0xC0 + u / 64, 0x80 + u % 64]
    else if u < 0x10000 then [0xE0 + u / 4096, 0x80 + u / 64 % 64, 0x80 + u % 64]
    else [0xF0 + u / 262144, 0x80 + u / 4096 % 64, 0x80 + u / 64 % 64, 0x80 + u % 64]
  }

  lemma EncodedIsChar(u: int)
    requires IsScalar(u)
    ensures IsChar(Encode(u))
  {
    if 0x800 <= u < 0x10000 {
      assert u / 4096 * 64 + u / 64 % 64 == u / 64;
    } else if 0x10000 <= u {
      assert u / 262144 * 64 + u / 4096 % 64 == u / 4096;
    }
  }

  lemma CharIsEncoded(c: seq<Byte>) returns (u: int)
    requires IsChar(c)
    ensures IsScalar(u) && Encode(u) == c
  {
    if |c| == 1 {
      u := c[0];
    } else if |c| == 2 {
      u := Decode2(c);
    } else if |c| == 3 {
      u := Decode3(c);
    } else {
      u := Decode4(c);
    }
  }

  lemma Decode2(c: seq<Byte>) returns (u: int)
    requires IsChar(c) && |c| == 2
    ensures IsScalar(u) && Encode(u) == c
  {
    var lead: int, x: int := c[0], c[1];
    u := (lead - 0xC0) * 64 + (x - 0x80);
  }

  lemma Decode3(c: seq<Byte>) returns (u: int)
    requires IsChar(c) && |c| == 3
    ensures IsScalar(u) && Encode(u) == c
  {
    var lead: int, x: int, y: int := c[0], c[1], c[2];
    u := ((lead - 0xE0) * 64 + (x - 0x80)) * 64 + (y - 0x80);
    ThreeGroups(lead - 0xE0, x - 0x80, y - 0x80);
  }

  lemma Decode4(c: seq<Byte>) returns (u: int)
    requires IsChar(c) && |c| == 4
    ensures IsScalar(u) && Encode(u) == c
  {
    var lead: int, x: int, y: int, z: int := c[0], c[1], c[2], c[3];
    u := (((lead - 0xF0) * 64 + (x - 0x80)) * 64 + (y - 0x80)) * 64 + (z - 0x80);
    FourGroups(lead - 0xF0, x - 0x80, y - 0x80, z - 0x80);
  }

  lemma ThreeGroups(a: int, b: int, c: int)
    requires 0 <= a && 0 <= b < 64 && 0 <= c < 64
    ensures var u := (a * 64 + b) * 64 + c; u / 4096 == a && u / 64 % 64 == b && u % 64 == c
  {
    var u := (a * 64 + b) * 64 + c;
    assert u / 64 == a * 64 + b;
  }

  lemma FourGroups(a: int, b: int, c: int, d: int)
    requires 0 <= a && 0 <= b < 64 && 0 <= c < 64 && 0 <= d < 64
    ensures var u := ((a * 64 + b) * 64 + c) * 64 + d;
      u / 262144 == a && u / 4096 % 64 == b && u / 64 % 64 == c && u % 64 == d
  {
    var u := ((a * 64 + b) * 64 + c) * 64 + d;
    assert u / 64 == (a * 64 + b) * 64 + c;
    ThreeGroups(a, b, c);
  }

  /** The characters of the grammar are exactly the encodings of the scalar values. */
  lemma GrammarIsEncoding(c: seq<Byte>)
    ensures IsChar(c) <==> exists u :: IsScalar(u) && Encode(u) == c
  {
    if IsChar(c) {
      var u := CharIsEncoded(c);
    }
    if u :| IsScalar(u) && Encode(u) == c {
      EncodedIsChar(u);
    }
  }
}
