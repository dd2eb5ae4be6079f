/**
  A batch in use: the client of `CatFile`, the deadline of `Watchdog` and a succession of children,
  interleaved. Request k asks for record `rs[k]`; a child started for request k delivers some prefix
  of the answers to the requests from k on, and may die, be killed or refuse a request at any time.
*/
module CatFileRuns {
  import opened Basics
  import opened CatFile
  import opened CatFileRecords
  import W = Watchdog

  /** `rest` is what the current child still delivers, `answer` what the exchange in flight brought,
      `told` what the finished requests returned. */
  datatype Joint = Joint(batch: W.Batch, rest: string, answer: Answer, told: seq<Answer>)

  datatype Event =
    | Tick(to: nat)
    | Stop
    | Begin(delivers: nat)
    | Arm(deadline: nat)
    | Talk(written: bool)
    | Disarm
    | WatchdogFires

  /** What the client reads from the stream; `CatFile.Exchange` in the theorem. */
  type Client = string -> Answer

  function Talked(x: Client, j: Joint, written: bool): Answer {
    Attempt(x(j.rest), written, false)
  }

  function ClockEvent(x: Client, j: Joint, e: Event): W.Event {
    match e
    case Tick(to) => W.Tick(to)
    case Stop => W.Stop
    case Begin(_) => W.Begin
    case Arm(deadline) => W.Arm(deadline)
    case Talk(written) =>
      var a := Talked(x, j, written);
      W.ExchangeEnds(a.outcome.Object? && !a.poisoned, a.poisoned)
    case Disarm => W.Disarm
    case WatchdogFires => W.WatchdogFires
  }

  predicate Enabled(x: Client, rs: seq<Record>, j: Joint, e: Event) {
    W.Enabled(j.batch, ClockEvent(x, j, e)) && (e.Begin? ==> |j.told| < |rs|)
  }

  function Step(x: Client, rs: seq<Record>, j: Joint, e: Event): Joint
    requires Enabled(x, rs, j, e)
  {
    var next := j.(batch := W.Step(j.batch, ClockEvent(x, j, e)));
    match e
    case Begin(delivers) =>
      if j.batch.hasChild && !j.batch.poisoned then next
      else next.(rest := Take(Stream(rs[|j.told|..]), delivers))
    case Talk(written) =>
      var a := Talked(x, j, written);
      next.(answer := a, rest := Left(j.rest, a))
    case Disarm => next.(told := j.told + [Attempt(j.answer, true, j.batch.clock.fired)])
    case _ => next
  }

  ghost predicate Initial(j: Joint) {
    W.Initial(j.batch) && j.told == []
  }

  ghost predicate ValidRun(x: Client, rs: seq<Record>, j: Joint, es: seq<Event>)
    decreases |es|
  {
    es == [] || (Enabled(x, rs, j, es[0]) && ValidRun(x, rs, Step(x, rs, j, es[0]), es[1..]))
  }

  ghost function Play(x: Client, rs: seq<Record>, j: Joint, es: seq<Event>): Joint
    requires ValidRun(x, rs, j, es)
    decreases |es|
  {
    if es == [] then j else Play(x, rs, Step(x, rs, j, es[0]), es[1..])
  }

  // ----- what every step keeps -----

  /** The request's own outcome, or a poisoned answer that tells nothing about any record. */
  predicate Own(a: Answer, r: Record) {
    a.outcome == OutcomeOf(r) || (a.poisoned && (a.outcome == IoError || a.outcome == ParseError))
  }

  /** The stream stands at the answer to request `k`. */
  ghost predicate Aligned(rest: string, rs: seq<Record>, k: nat) {
    k <= |rs| && exists n :: rest == Take(Stream(rs[k..]), n)
  }

  /** Finished requests were told their own, or a Timeout. */
  ghost predicate HistoryOk(rs: seq<Record>, j: Joint) {
    var replies := j.batch.replies;
    && |j.told| == |replies| <= |rs|
    && (forall i :: 0 <= i < |replies| ==>
          if replies[i].result.Timeout? then j.told[i] == Answer(Timeout, 0, true) else Own(j.told[i], rs[i]))
  }

  /** Where the stream of a child that may still be used stands. */
  ghost predicate PlaceOk(rs: seq<Record>, j: Joint) {
    var b, k := j.batch, |j.told|;
    && (!b.phase.Free? ==> k < |rs|)
    && (b.phase.Ready? || b.phase.Armed? || (b.phase.Free? && b.hasChild && !b.poisoned) ==> Aligned(j.rest, rs, k))
    && (b.phase.Exchanged? ==> TalkedWell(j.answer, j.rest, rs, k) && j.answer.poisoned == b.poisoned)
  }

  /** The answer to request `k` is its own, and leaves the stream at the next unless it poisons. */
  ghost predicate TalkedWell(a: Answer, rest: string, rs: seq<Record>, k: nat) {
    k < |rs| && Own(a, rs[k]) && (!a.poisoned ==> Aligned(rest, rs, k + 1))
  }

  ghost predicate Inv(rs: seq<Record>, j: Joint) {
    W.Inv(j.batch) && HistoryOk(rs, j) && PlaceOk(rs, j)
  }

  /** A client that consumes its own record or poisons; `Exchange` is one. */
  ghost predicate Reliable(x: Client) {
    forall rs, n :: rs != [] && AllConform(rs) ==> Belongs(x(Take(Stream(rs), n)), rs, n)
  }

  /** What is left of the stream after an answer. */
  function Left(rest: string, a: Answer): string {
    if a.poisoned || a.consumed > |rest| then "" else rest[a.consumed..]
  }

  lemma ReliableAt(x: Client, rs: seq<Record>, k: nat, n: nat)
    requires Reliable(x) && AllConform(rs) && k < |rs|
    ensures Belongs(x(Take(Stream(rs[k..]), n)), rs[k..], n)
  {
    assert AllConform(rs[k..]);
  }

  lemma BelongingIsWell(a: Answer, rest: string, rs: seq<Record>, k: nat, n: nat, written: bool)
    requires k < |rs| && rest == Take(Stream(rs[k..]), n) && Belongs(a, rs[k..], n)
    ensures var b := Attempt(a, written, false); TalkedWell(b, Left(rest, b), rs, k)
  {
    assert rs[k..][1..] == rs[k + 1..];
    if !a.poisoned && written {
      assert Left(rest, a) == Take(Stream(rs[k + 1..]), n - a.consumed);
    }
  }

  lemma TalkAligns(x: Client, rs: seq<Record>, k: nat, rest: string, written: bool)
    requires Reliable(x) && AllConform(rs) && k < |rs| && Aligned(rest, rs, k)
    ensures var a := Attempt(x(rest), written, false); TalkedWell(a, Left(rest, a), rs, k)
  {
    var n: nat :| rest == Take(Stream(rs[k..]), n);
    ReliableAt(x, rs, k, n);
    BelongingIsWell(x(rest), rest, rs, k, n, written);
  }

  lemma TalkKeepsInv(x: Client, rs: seq<Record>, j: Joint, written: bool)
    requires Inv(rs, j) && Enabled(x, rs, j, Talk(written))
    requires var a := Talked(x, j, written); TalkedWell(a, Left(j.rest, a), rs, |j.told|)
    ensures Inv(rs, Step(x, rs, j, Talk(written)))
  {
    W.StepKeepsInv(j.batch, ClockEvent(x, j, Talk(written)));
  }

  lemma BeginKeepsInv(x: Client, rs: seq<Record>, j: Joint, delivers: nat)
    requires Inv(rs, j) && Enabled(x, rs, j, Begin(delivers))
    ensures Inv(rs, Step(x, rs, j, Begin(delivers)))
  {
    W.StepKeepsInv(j.batch, W.Begin);
  }

  lemma DisarmKeepsInv(x: Client, rs: seq<Record>, j: Joint)
    requires Inv(rs, j) && Enabled(x, rs, j, Disarm)
    ensures Inv(rs, Step(x, rs, j, Disarm))
  {
    W.StepKeepsInv(j.batch, W.Disarm);
  }

  lemma ClockKeepsInv(x: Client, rs: seq<Record>, j: Joint, e: Event)
    requires Inv(rs, j) && Enabled(x, rs, j, e) && !e.Talk? && !e.Begin? && !e.Disarm?
    ensures Inv(rs, Step(x, rs, j, e))
  {
    W.StepKeepsInv(j.batch, ClockEvent(x, j, e));
  }

  lemma StepKeepsInv(x: Client, rs: seq<Record>, j: Joint, e: Event)
    requires Reliable(x) && AllConform(rs) && Inv(rs, j) && Enabled(x, rs, j, e)
    ensures Inv(rs, Step(x, rs, j, e))
  {
    if e.Talk? {
      TalkAligns(x, rs, |j.told|, j.rest, e.written);
      TalkKeepsInv(x, rs, j, e.written);
    } else if e.Begin? {
      BeginKeepsInv(x, rs, j, e.delivers);
    } else if e.Disarm? {
      DisarmKeepsInv(x, rs, j);
    } else {
      ClockKeepsInv(x, rs, j, e);
    }
  }

  lemma {:induction false} RunKeepsInv(x: Client, rs: seq<Record>, j: Joint, es: seq<Event>)
    requires Reliable(x) && AllConform(rs) && Inv(rs, j) && ValidRun(x, rs, j, es)
    ensures Inv(rs, Play(x, rs, j, es))
    decreases |es|
  {
    if es != [] {
      StepKeepsInv(x, rs, j, es[0]);
      RunKeepsInv(x, rs, Step(x, rs, j, es[0]), es[1..]);
    }
  }

  lemma ExchangeIsReliable()
    ensures Reliable(Exchange)
  {
    forall rs, n | rs != [] && AllConform(rs)
      ensures Belongs(Exchange(Take(Stream(rs), n)), rs, n)
    {
      OneRecordOrPoison(rs, n);
    }
  }

  /** Whatever is asked, whichever children die, are killed or refuse a request, and wherever each
      one's output ends, an answer belongs to its own request: each is told its own record's outcome,
      or is poisoned and tells nothing about any record; and it is a Timeout if and only if the
      watchdog killed a child for this request. */
  lemma AnswersBelongToTheirRequests(rs: seq<Record>, j: Joint, es: seq<Event>, k: nat)
    requires AllConform(rs) && Initial(j) && ValidRun(Exchange, rs, j, es) && k < |Play(Exchange, rs, j, es).told|
    ensures var v := Play(Exchange, rs, j, es);
      && k < |rs| && |v.batch.replies| == |v.told|
      && (Own(v.told[k], rs[k]) || v.told[k] == Answer(Timeout, 0, true))
      && (v.told[k].outcome == Timeout <==> W.KilledFor(v.batch, v.batch.replies[k].child, k))
  {
    ExchangeIsReliable();
    RunKeepsInv(Exchange, rs, j, es);
  }
}
