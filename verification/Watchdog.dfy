/**
  The deadline on one `cat-file` request (src/core/git/CatFileBatch.cpp): `read` arms a clock for the
  request, a watchdog thread kills the child when the clock runs out, and `read` disarms it.

  Requests are numbered 0, 1, ... in the order they take the batch's lock, children in the order
  they are spawned.
*/
module Watchdog {
  import opened Basics

  /** The clock inside one child's `Impl`. */
  datatype Clock = Clock(due: Option<nat>, fired: bool)

  const UNARMED := Clock(None, false)

  function AfterArm(c: Clock, deadline: nat): Clock {
    Clock(Some(deadline), false)
  }

  function AfterDisarm(c: Clock): Clock {
    c.(due := None)
  }

  predicate Expired(c: Clock, now: nat) {
    c.due.Some? && c.due.value <= now
  }

  function AfterWatch(c: Clock, now: nat): Clock {
    if Expired(c, now) then Clock(None, true) else c
  }

  class Impl {
    var due: Option<nat>
    var fired: bool

    ghost function View(): Clock
      reads this
    {
      Clock(due, fired)
    }

    constructor ()
      ensures View() == UNARMED
    {
      due, fired := None, false;
    }

    method Arm(now: nat, deadline: nat)
      modifies this
      ensures View() == AfterArm(old(View()), now + deadline)
      ensures due == Some(now + deadline) && !fired
    {
      due, fired := Some(now + deadline), false;
    }

    method Disarm() returns (killed: bool)
      modifies this
      ensures View() == AfterDisarm(old(View())) && killed == old(fired)
      ensures due == None && fired == old(fired)
    {
      due := None;
      return fired;
    }

    /** One turn of the watchdog's loop under its lock. */
    method Watch(now: nat) returns (kills: bool)
      modifies this
      ensures View() == AfterWatch(old(View()), now)
      ensures kills == (old(due).Some? && old(due).value <= now)
      ensures fired == (old(fired) || kills) && due == if kills then None else old(due)
    {
      kills := due.Some? && due.value <= now;
      if kills {
        fired, due := true, None;
      }
    }
  }

  // ----- the requesting thread and the watchdog -----

  /** Where the request that holds the lock stands. `Exchanged` remembers whether the exchange
      brought an answer. */
  datatype Phase = Free | Ready | Armed | Exchanged(served: bool)

  datatype Result = Served | Failed | Timeout
  datatype Reply = Reply(child: nat, result: Result)

  /** A kill of a child for a request that was armed at `armedAt` with `deadline`, at time `at`. */
  datatype Kill = Kill(child: nat, request: nat, armedAt: nat, deadline: nat, at: nat)

  /** `child` is the current `Impl`'s child, the newest of those spawned; request `|replies|` is
      the one in flight, and `armedAt` and `deadline` are its own. */
  datatype Batch = Batch(
    hasChild: bool,
    child: nat,
    clock: Clock,
    poisoned: bool,
    phase: Phase,
    now: nat,
    armedAt: nat,
    deadline: nat,
    replies: seq<Reply>,
    kills: seq<Kill>)

  datatype Event =
    | Tick(to: nat)
    | Stop
    | Begin
    | Arm(deadline: nat)
    | ExchangeEnds(served: bool, poisons: bool)
    | Disarm
    | WatchdogFires

  predicate Enabled(b: Batch, e: Event) {
    match e
    case Tick(to) => b.now <= to
    case Stop => b.phase.Free?
    case Begin => b.phase.Free?
    case Arm(_) => b.phase.Ready?
    case ExchangeEnds(served, poisons) => b.phase.Armed? && (served ==> !poisons)
    case Disarm => b.phase.Exchanged?
    case WatchdogFires => b.hasChild && Expired(b.clock, b.now)
  }

  function Step(b: Batch, e: Event): Batch
    requires Enabled(b, e)
  {
    match e
    case Tick(to) => b.(now := to)
    case Stop => b.(hasChild := false)
    case Begin =>
      if b.hasChild && !b.poisoned then b.(phase := Ready)
      else b.(hasChild := true, child := b.child + 1, clock := UNARMED, poisoned := false, phase := Ready)
    case Arm(deadline) =>
      b.(clock := AfterArm(b.clock, b.now + deadline), phase := Armed, armedAt := b.now, deadline := deadline)
    case ExchangeEnds(served, poisons) => b.(poisoned := poisons, phase := Exchanged(served))
    case Disarm =>
      var result := if b.clock.fired then Timeout else if b.phase.served then Served else Failed;
      b.(clock := AfterDisarm(b.clock), poisoned := b.poisoned || b.clock.fired, phase := Free,
         replies := b.replies + [Reply(b.child, result)])
    case WatchdogFires =>
      var kill := Kill(b.child, |b.replies|, b.armedAt, b.deadline, b.now);
      b.(clock := AfterWatch(b.clock, b.now), kills := b.kills + [kill])
  }

  ghost predicate Initial(b: Batch) {
    b == Batch(false, 0, UNARMED, false, Free, b.now, b.armedAt, b.deadline, [], [])
  }

  ghost predicate ValidRun(b: Batch, es: seq<Event>)
    decreases |es|
  {
    es == [] || (Enabled(b, es[0]) && ValidRun(Step(b, es[0]), es[1..]))
  }

  ghost function Play(b: Batch, es: seq<Event>): Batch
    requires ValidRun(b, es)
    decreases |es|
  {
    if es == [] then b else Play(Step(b, es[0]), es[1..])
  }

  // ----- what every step keeps -----

  predicate InFlight(b: Batch) {
    b.phase.Armed? || b.phase.Exchanged?
  }

  /** The clock runs only for the request in flight; a fired clock means its child was killed for
      that very request, and once the request is over the batch is poisoned. */
  ghost predicate ClockOk(b: Batch) {
    && (b.clock.due.Some? ==> InFlight(b) && !b.clock.fired && b.clock.due.value == b.armedAt + b.deadline)
    && (InFlight(b) && !b.clock.fired ==> b.clock.due.Some?)
    && (b.phase.Ready? ==> !b.clock.fired && !b.poisoned)
    && (b.phase.Armed? ==> !b.poisoned)
    && (!b.phase.Free? ==> b.hasChild)
    && (b.clock.fired && b.phase.Free? && b.hasChild ==> b.poisoned)
  }

  /** A child was killed for a request. */
  ghost predicate KilledFor(b: Batch, child: nat, request: nat) {
    exists k :: k in b.kills && k.child == child && k.request == request
  }

  /** A kill is answered by the request it was made for, on the child it was made on. */
  ghost predicate KillsOk(b: Batch) {
    && (forall k :: k in b.kills ==>
          && k.armedAt + k.deadline <= k.at
          && k.child <= b.child && k.request <= |b.replies|
          && (k.request < |b.replies| ==> b.replies[k.request] == Reply(k.child, Timeout))
          && (k.request == |b.replies| ==> k.child == b.child && b.clock.fired && InFlight(b))
          && (k.child == b.child ==> if b.phase.Free? then b.hasChild ==> b.poisoned else k.request == |b.replies|))
    && (b.clock.fired && InFlight(b) ==> KilledFor(b, b.child, |b.replies|))
  }

  /** Children are used in the order they were spawned, and not again after a kill. */
  ghost predicate RepliesOk(b: Batch) {
    && (forall i :: 0 <= i < |b.replies| ==> b.replies[i].child <= b.child)
    && (forall i :: 0 <= i < |b.replies| && b.replies[i].result.Timeout? ==> KilledFor(b, b.replies[i].child, i))
    && (forall k, i :: k in b.kills && k.request < i < |b.replies| ==> k.child < b.replies[i].child)
  }

  ghost predicate Inv(b: Batch) {
    ClockOk(b) && KillsOk(b) && RepliesOk(b)
  }

  lemma DisarmKeepsInv(b: Batch)
    requires Inv(b) && b.phase.Exchanged?
    ensures Inv(Step(b, Disarm))
  {
    var next := Step(b, Disarm);
    assert forall i :: 0 <= i < |b.replies| ==> next.replies[i] == b.replies[i];
  }

  lemma StepKeepsInv(b: Batch, e: Event)
    requires Inv(b) && Enabled(b, e)
    ensures Inv(Step(b, e))
  {
    if e.Disarm? { DisarmKeepsInv(b); }
  }

  lemma {:induction false} RunKeepsInv(b: Batch, es: seq<Event>)
    requires Inv(b) && ValidRun(b, es)
    ensures Inv(Play(b, es))
    decreases |es|
  {
    if es != [] {
      StepKeepsInv(b, es[0]);
      RunKeepsInv(Step(b, es[0]), es[1..]);
    }
  }

  /** In every interleaving of requests, clock and watchdog: the watchdog can fire only while a
      request is armed; a finished request reports Timeout exactly when its child was killed for
      it; and no later request is given a killed child. */
  lemma KillsAreChargedOnce(b: Batch, es: seq<Event>)
    requires Initial(b) && ValidRun(b, es)
    ensures var v := Play(b, es);
      && (Enabled(v, WatchdogFires) ==> InFlight(v))
      && (forall i :: 0 <= i < |v.replies| ==>
            (v.replies[i].result.Timeout? <==> KilledFor(v, v.replies[i].child, i)))
      && (forall k :: k in v.kills && k.request < |v.replies| ==> v.replies[k.request] == Reply(k.child, Timeout))
      && (forall k, i :: k in v.kills && k.request < i < |v.replies| ==> v.replies[i].child != k.child)
  {
    RunKeepsInv(b, es);
  }

  /** A request that ends in Timeout leaves the batch poisoned, so the next one starts a new child. */
  lemma TimeoutReplacesTheChild(b: Batch, es: seq<Event>)
    requires Initial(b) && ValidRun(b, es) && Play(b, es).phase.Free? && Play(b, es).replies != []
    requires var v := Play(b, es); v.replies[|v.replies| - 1].result.Timeout?
    ensures var v := Play(b, es);
      Step(v, Begin).child > v.replies[|v.replies| - 1].child
  {
    RunKeepsInv(b, es);
    var v := Play(b, es);
    assert KilledFor(v, v.replies[|v.replies| - 1].child, |v.replies| - 1);
  }

  /** In every run the watchdog can fire exactly when a request is in flight whose child has not been
      killed for it and whose deadline, counted from its arming, has passed; so every kill came no
      earlier than that. */
  lemma FiresExactlyWhenOverdue(b: Batch, es: seq<Event>)
    requires Initial(b) && ValidRun(b, es)
    ensures var v := Play(b, es);
      && (Enabled(v, WatchdogFires) <==>
            InFlight(v) && !KilledFor(v, v.child, |v.replies|) && v.armedAt + v.deadline <= v.now)
      && (forall k :: k in v.kills ==> k.armedAt + k.deadline <= k.at)
  {
    RunKeepsInv(b, es);
  }

  /** A request armed at time 0 with 30 seconds is not killed at once. */
  lemma NotKilledAtOnce(child: nat)
    ensures var b := Batch(true, child, UNARMED, false, Ready, 0, 0, 0, [], []);
      !Enabled(Step(b, Arm(30000)), WatchdogFires) &&
      Enabled(Step(Step(b, Arm(30000)), Tick(30000)), WatchdogFires)
  {
  }
}
