/**
  The askpass handshake: `AskpassPoller` (src/capi/AskpassPoller.cpp) on one side, a succession of
  askpass clients (src/core/git/AskpassHelper.cpp) on the other, talking through a request file and
  a response file.

  Prompts and secrets are known by the client they belong to: client k writes request k, and
  `Secret(k)` is what the user answers to prompt k. git runs one client at a time, the user answers
  a prompt once and only after it was raised, and a client leaves only by taking an answer.
*/
module Askpass {
  import opened Basics

  // ----- writing a handshake file -----

  /** What one `write(2)` call did: moved some bytes, was interrupted, or failed. */
  datatype WriteResult = Wrote(n: nat) | Interrupted | WriteError

  /** The calls bring `left` bytes to the file before one of them fails or they run out. */
  predicate BringsAll(left: nat, writes: seq<WriteResult>) {
    left == 0 ||
    (writes != [] &&
     match writes[0]
     case WriteError => false
     case Interrupted => BringsAll(left, writes[1..])
     case Wrote(n) => n >= left || BringsAll(left - n, writes[1..]))
  }

  /** How many bytes these calls move. */
  function Moved(writes: seq<WriteResult>): nat {
    if writes == [] then 0 else (if writes[0].Wrote? then writes[0].n else 0) + Moved(writes[1..])
  }

  /** All is brought exactly when some calls before the first error move enough; an interrupted call
      counts for nothing. */
  lemma {:induction false} BringsAllIff(left: nat, writes: seq<WriteResult>)
    ensures BringsAll(left, writes) <==>
      exists m :: 0 <= m <= |writes| && WriteError !in writes[..m] && Moved(writes[..m]) >= left
    decreases |writes|
  {
    if left == 0 {
      assert Moved(writes[..0]) >= left && WriteError !in writes[..0];
    } else if writes != [] {
      var n := if writes[0].Wrote? then writes[0].n else 0;
      var rest := if n >= left then 0 else left - n;
      BringsAllIff(rest, writes[1..]);
      FirstCall(writes, left, n, rest);
      assert writes[0] != WriteError ==> (BringsAll(left, writes) <==> BringsAll(rest, writes[1..]));
    }
  }

  ghost predicate EnoughCalls(writes: seq<WriteResult>, left: nat) {
    exists m :: 0 <= m <= |writes| && WriteError !in writes[..m] && Moved(writes[..m]) >= left
  }

  lemma FirstCall(writes: seq<WriteResult>, left: nat, n: nat, rest: nat)
    requires writes != [] && left > 0 && n == (if writes[0].Wrote? then writes[0].n else 0)
    requires rest == if n >= left then 0 else left - n
    ensures EnoughCalls(writes, left) <==> writes[0] != WriteError && EnoughCalls(writes[1..], rest)
  {
    if EnoughCalls(writes, left) {
      var m :| 0 <= m <= |writes| && WriteError !in writes[..m] && Moved(writes[..m]) >= left;
      assert writes[..m][1..] == writes[1..][..m - 1] && writes[..m][0] == writes[0];
    }
    if writes[0] != WriteError && EnoughCalls(writes[1..], rest) {
      var m :| 0 <= m <= |writes[1..]| && WriteError !in writes[1..][..m] && Moved(writes[1..][..m]) >= rest;
      assert writes[..m + 1] == [writes[0]] + writes[1..][..m];
      assert writes[..m + 1][1..] == writes[1..][..m];
    }
  }

  /** A handshake file and its `.tmp` sibling. */
  class HandshakeFile {
    var target: Option<string>
    var tmp: Option<string>

    /** Whatever the system calls do, the target appears whole or stays as it was; and it appears
        exactly when the file opens, the writes bring all of it, and closing and renaming succeed.
        `writes` lists what the successive `write(2)` calls do. */
    method Write(content: string, opens: bool, writes: seq<WriteResult>, closes: bool, renames: bool)
      returns (ok: bool)
      modifies this
      ensures ok == (opens && BringsAll(|content|, writes) && closes && renames)
      ensures target == if ok then Some(content) else old(target)
    {
      if !opens {
        return false;
      }
      var text: string := [];
      tmp := Some(text);
      var left := content;
      var i := 0;
      assert writes[0..] == writes;
      while left != []
        invariant 0 <= i <= |writes|
        invariant text + left == content
        invariant target == old(target) && tmp == Some(text)
        invariant BringsAll(|left|, writes[i..]) == BringsAll(|content|, writes)
        decreases |writes| - i
      {
        if i == |writes| || writes[i].WriteError? {
          return false;
        }
        assert writes[i..][1..] == writes[i + 1..];
        if writes[i].Wrote? {
          var n := if writes[i].n <= |left| then writes[i].n else |left|;
          text, left := text + left[..n], left[n..];
          tmp := Some(text);
        }
        i := i + 1;
      }
      assert text == content;
      if !closes || !renames {
        return false;
      }
      target, tmp := tmp, None;
      return true;
    }
  }

  /** The poller's two flags. */
  datatype Flags = Flags(requestSeen: bool, answered: bool)

  const UNARMED := Flags(false, false)

  function AfterRearm(f: Flags): Flags { UNARMED }

  function AfterSeen(f: Flags): Flags { f.(requestSeen := true) }

  function AfterAnswer(f: Flags, written: bool): Flags { if written then f.(answered := true) else f }

  /** The flags in place, each method one use of the lock; the protocol below steps through the same
      functions. */
  class AskpassPoller {
    var requestSeen: bool
    var answered: bool
    const response: HandshakeFile

    ghost function View(): Flags
      reads this
    {
      Flags(requestSeen, answered)
    }

    constructor (response: HandshakeFile)
      ensures View() == UNARMED && this.response == response
    {
      requestSeen, answered := false, false;
      this.response := response;
    }

    method Rearm()
      modifies this
      ensures View() == AfterRearm(old(View()))
    {
      requestSeen, answered := false, false;
    }

    method MarkSeen()
      modifies this
      ensures View() == AfterSeen(old(View()))
    {
      requestSeen := true;
    }

    /** The flag is set exactly when the secret is in the file, and before the lock is let go. */
    method Answer(secret: string, opens: bool, writes: seq<WriteResult>, closes: bool, renames: bool)
      returns (ok: bool)
      modifies this, response
      ensures ok == (opens && BringsAll(|secret|, writes) && closes && renames)
      ensures View() == AfterAnswer(old(View()), ok)
      ensures response.target == if ok then Some(secret) else old(response.target)
    {
      ok := response.Write(secret, opens, writes, closes, renames);
      if ok {
        answered := true;
      }
    }
  }

  // ----- the protocol -----

  datatype Secret = Secret(answers: nat)

  /** The client git is running: between two `Start`s there is one, numbered `client`. */
  datatype Client = NotStarted | Waiting | SawResponse | Read(secret: Secret) | RequestRemoved(secret: Secret) | Left

  /** The polling thread. `Snapshot` holds what it copied under the lock, `ResponseKept` that the
      response check did not see it taken, `Rearm` that one of the two checks decided to re-arm. */
  datatype Poller =
    | Top
    | Snapshot(seen: bool, answered: bool)
    | ResponseKept
    | Rearm
    | HasContent(prompt: nat)
    | Raising(prompt: nat)

  /** The user: `Answering` holds the poller's lock between writing the file and setting the flag. */
  datatype User = Quiet | Answering

  datatype State = State(
    request: Option<nat>,
    response: Option<Secret>,
    flags: Flags,
    poller: Poller,
    user: User,
    client: nat,
    at: Client,
    raised: seq<nat>,
    replies: seq<nat>,
    taken: seq<Secret>)

  datatype Event =
    | PollerMoves
    | AnswerWrites
    | AnswerSets
    | ClientStarts
    | ClientMoves

  /** The poller waits only for the lock, and only the user can be holding it. */
  predicate PollerNeedsLock(p: Poller) {
    p.Top? || p.Rearm? || p.HasContent?
  }

  predicate Enabled(s: State, e: Event) {
    match e
    case PollerMoves => PollerNeedsLock(s.poller) ==> s.user.Quiet?
    case AnswerWrites => s.user.Quiet? && s.raised != [] && s.raised[|s.raised| - 1] !in s.replies
    case AnswerSets => s.user.Answering?
    case ClientStarts => s.at.NotStarted? || s.at.Left?
    case ClientMoves =>
      !s.at.NotStarted? && !s.at.Left? && (s.at.Waiting? || s.at.SawResponse? ==> s.response.Some?)
  }

  function PollerStep(s: State): State {
    match s.poller
    case Top => s.(poller := Snapshot(s.flags.requestSeen, s.flags.answered))
    case Snapshot(seen, answered) =>
      if !seen then s.(poller := if s.request.Some? then HasContent(s.request.value) else Top)
      else s.(poller := if answered && s.response.None? then Rearm else ResponseKept)
    case ResponseKept => s.(poller := if s.request.None? then Rearm else Top)
    case Rearm => s.(flags := AfterRearm(s.flags), poller := Top)
    case HasContent(k) => s.(flags := AfterSeen(s.flags), poller := Raising(k))
    case Raising(k) => s.(raised := s.raised + [k], poller := Top)
  }

  function ClientStep(s: State): State
    requires Enabled(s, ClientMoves)
  {
    match s.at
    case Waiting => s.(at := SawResponse)
    case SawResponse => s.(at := Read(s.response.value))
    case Read(secret) => s.(request := None, at := RequestRemoved(secret))
    case RequestRemoved(secret) => s.(response := None, taken := s.taken + [secret], at := Left)
  }

  function Step(s: State, e: Event): State
    requires Enabled(s, e)
  {
    match e
    case PollerMoves => PollerStep(s)
    case AnswerWrites =>
      var k := s.raised[|s.raised| - 1];
      s.(response := Some(Secret(k)), replies := s.replies + [k], user := Answering)
    case AnswerSets => s.(flags := AfterAnswer(s.flags, true), user := Quiet)
    case ClientStarts => s.(client := s.client + 1, request := Some(s.client + 1), at := Waiting)
    case ClientMoves => ClientStep(s)
  }

  const STARTED := State(None, None, UNARMED, Top, Quiet, 0, NotStarted, [], [], [])

  ghost predicate ValidRun(s: State, es: seq<Event>)
    decreases |es|
  {
    es == [] || (Enabled(s, es[0]) && ValidRun(Step(s, es[0]), es[1..]))
  }

  ghost function Play(s: State, es: seq<Event>): State
    requires ValidRun(s, es)
    decreases |es|
  {
    if es == [] then s else Play(Step(s, es[0]), es[1..])
  }

  // ----- the invariant -----

  /** The list 1, 2, ..., n. */
  ghost predicate CountsTo(s: seq<nat>, n: nat) {
    |s| == n && forall i :: 0 <= i < n ==> s[i] == i + 1
  }

  /** Client k's own answer is on its way to it. */
  predicate Taking(c: Client) {
    c.Read? || c.RequestRemoved?
  }

  /** The files say where the current client stands: its request is there from its start until it
      removes it, its response from the user's answer until it takes it. */
  ghost predicate FilesOk(s: State) {
    && (s.at.NotStarted? <==> s.client == 0)
    && s.request == (if s.at.Waiting? || s.at.SawResponse? || s.at.Read? then Some(s.client) else None)
    && (s.response.Some? <==> |s.replies| == s.client && !s.at.NotStarted? && !s.at.Left?)
    && (s.response.Some? ==> s.response.value == Secret(s.client))
    && (s.at.SawResponse? || Taking(s.at) ==> s.response.Some?)
    && (Taking(s.at) ==> s.at.secret == Secret(s.client))
    && |s.taken| == (if s.at.NotStarted? || s.at.Left? then s.client else s.client - 1)
    && (forall i :: 0 <= i < |s.taken| ==> s.taken[i] == Secret(i + 1))
  }

  /** Prompts are raised, and answered, in the order of the clients and once each. */
  ghost predicate OrderOk(s: State) {
    && CountsTo(s.raised, |s.raised|) && CountsTo(s.replies, |s.replies|)
    && |s.replies| <= |s.raised| <= s.client <= |s.replies| + 1
    && (s.at.Left? ==> |s.replies| == s.client)
    && (s.user.Answering? ==> |s.replies| == |s.raised| > 0 && s.flags.requestSeen && !s.poller.Raising?)
  }

  /** `requestSeen_` and `answered_` always speak of the newest raised prompt, and a decision to
      re-arm is taken only once that prompt's request is gone for good. */
  ghost predicate FlagsOk(s: State) {
    var gone := s.request != Some(|s.raised|);
    && (s.flags.answered ==> s.flags.requestSeen && |s.replies| == |s.raised|)
    && (!s.poller.Raising? && !s.flags.requestSeen ==> gone)
    && (!s.poller.Raising? && s.flags.requestSeen ==>
          |s.raised| > 0 && (s.flags.answered || s.user.Answering? || |s.replies| < |s.raised|))
    && (match s.poller
        case Top => true
        case Snapshot(seen, answered) => seen == s.flags.requestSeen && (answered ==> s.flags.answered)
        case ResponseKept => s.flags.requestSeen
        case Rearm => s.flags.requestSeen && gone && |s.replies| == |s.raised|
        case HasContent(k) => !s.flags.requestSeen && k == |s.raised| + 1 && s.client == k
        case Raising(k) => s.flags.requestSeen && !s.flags.answered && k == |s.raised| + 1 && s.client == k)
    && (s.poller.HasContent? || s.poller.Raising? ==> s.at.Waiting?)
  }

  ghost predicate Inv(s: State) {
    FilesOk(s) && OrderOk(s) && FlagsOk(s)
  }

  lemma CountsToHolds(s: seq<nat>, k: nat)
    requires CountsTo(s, |s|)
    ensures k in s <==> 1 <= k <= |s|
  {
    if 1 <= k <= |s| {
      assert s[k - 1] == k;
    }
  }

  lemma LastRaisedUnanswered(s: State)
    requires Inv(s) && Enabled(s, AnswerWrites)
    ensures |s.replies| < |s.raised| == s.client && s.raised[|s.raised| - 1] == s.client
  {
    CountsToHolds(s.replies, |s.raised|);
  }

  lemma PollerKeepsInv(s: State)
    requires Inv(s) && Enabled(s, PollerMoves)
    ensures Inv(PollerStep(s))
  {
  }

  lemma ClientKeepsInv(s: State)
    requires Inv(s) && Enabled(s, ClientMoves)
    ensures Inv(ClientStep(s))
  {
  }

  lemma StepKeepsInv(s: State, e: Event)
    requires Inv(s) && Enabled(s, e)
    ensures Inv(Step(s, e))
  {
    match e
    case PollerMoves => PollerKeepsInv(s);
    case AnswerWrites => LastRaisedUnanswered(s);
    case AnswerSets =>
    case ClientStarts =>
    case ClientMoves => ClientKeepsInv(s);
  }

  lemma {:induction false} RunKeepsInv(s: State, es: seq<Event>)
    requires Inv(s) && ValidRun(s, es)
    ensures Inv(Play(s, es))
    decreases |es|
  {
    if es != [] {
      StepKeepsInv(s, es[0]);
      RunKeepsInv(Step(s, es[0]), es[1..]);
    }
  }

  /** In every interleaving each prompt is raised at most once and in order, and the n-th secret
      taken is the answer to prompt n. */
  lemma EveryClientGetsItsOwnAnswer(es: seq<Event>)
    requires ValidRun(STARTED, es)
    ensures var s := Play(STARTED, es);
      && (forall i :: 0 <= i < |s.raised| ==> s.raised[i] == i + 1)
      && (forall i :: 0 <= i < |s.taken| ==> s.taken[i] == Secret(i + 1))
      && |s.taken| <= |s.raised| <= s.client
  {
    RunKeepsInv(STARTED, es);
  }

  // ----- no prompt stays unseen -----

  ghost function PollOn(s: State, n: nat): State
    decreases n
  {
    if n == 0 then s else PollOn(PollerStep(s), n - 1)
  }

  /** How many of its own steps the poller is away from raising the waiting prompt. */
  function Distance(s: State): nat {
    match s.poller
    case Raising(_) => 1
    case HasContent(_) => 2
    case Snapshot(seen, answered) => if !seen then 3 else if answered then 6 else 9
    case Top => if !s.flags.requestSeen then 4 else 7
    case Rearm => 5
    case ResponseKept => 8
  }

  /** The current client waits, its prompt has not been raised, and the user is not in the lock. */
  ghost predicate Unseen(s: State) {
    Inv(s) && s.at.Waiting? && |s.raised| < s.client && s.user.Quiet?
  }

  /** Then nobody but the poller can move, and each of its steps brings it closer to the prompt. */
  lemma OnlyThePollerMoves(s: State)
    requires Unseen(s)
    ensures forall e :: Enabled(s, e) <==> e == PollerMoves
    ensures var t := PollerStep(s);
      if Distance(s) == 1 then t.raised == s.raised + [s.client]
      else Unseen(t) && Distance(t) == Distance(s) - 1 && t.raised == s.raised && t.client == s.client
  {
    PollerKeepsInv(s);
    CountsToHolds(s.replies, |s.raised|);
  }

  lemma {:induction false} PollerRaises(s: State)
    requires Unseen(s)
    ensures Distance(s) <= 9 && PollOn(s, Distance(s)).raised == s.raised + [s.client]
    decreases Distance(s)
  {
    OnlyThePollerMoves(s);
    if Distance(s) > 1 {
      PollerRaises(PollerStep(s));
    } else {
      assert PollOn(s, 1) == PollOn(PollerStep(s), 0);
    }
  }

  /** No request stays unseen: in every run, once the user is out of the lock, a waiting client whose
      prompt has not been raised gets it raised by at most nine further steps of the poller, and
      nothing else can happen before. */
  lemma WaitingPromptIsRaised(es: seq<Event>)
    requires ValidRun(STARTED, es)
    requires var s := Play(STARTED, es); s.at.Waiting? && |s.raised| < s.client
    ensures var s := Play(STARTED, es);
      var t := if s.user.Answering? then Step(s, AnswerSets) else s;
      Distance(t) <= 9 && PollOn(t, Distance(t)).raised == t.raised + [s.client]
  {
    RunKeepsInv(STARTED, es);
    var s := Play(STARTED, es);
    if s.user.Answering? {
      StepKeepsInv(s, AnswerSets);
      PollerRaises(Step(s, AnswerSets));
    } else {
      PollerRaises(s);
    }
  }
}
