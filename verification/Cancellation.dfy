/**
  `CancellationToken`, `CancellationSource` and `Registration` over one shared state
  (src/core/base/CancellationToken.h).

  A callback is known by the number of the `onCancel` call that brought it. Registrations are
  handles that hold a list id or nothing, and can be moved and reset. Callbacks run outside the
  lock, so between a decision and the run anything else may happen.
*/
module Cancellation {
  import opened Basics

  // ----- the shared state -----

  datatype Entry = Entry(id: nat, callback: nat)

  datatype State = State(cancelled: bool, callbacks: seq<Entry>, nextId: nat)

  const FRESH := State(false, [], 0)

  function AfterRegister(s: State, callback: nat): State {
    if s.cancelled then s else State(false, s.callbacks + [Entry(s.nextId, callback)], s.nextId + 1)
  }

  function Without(es: seq<Entry>, id: nat): seq<Entry> {
    if es == [] then [] else (if es[0].id == id then [] else [es[0]]) + Without(es[1..], id)
  }

  function AfterRemove(s: State, id: nat): State {
    s.(callbacks := Without(s.callbacks, id))
  }

  function AfterCancel(s: State): State {
    if s.cancelled then s else s.(cancelled := true, callbacks := [])
  }

  lemma {:induction false} WithoutAppend(es: seq<Entry>, e: Entry, id: nat)
    ensures Without(es + [e], id) == Without(es, id) + if e.id == id then [] else [e]
  {
    if es == [] {
      assert es + [e] == [e];
    } else {
      WithoutAppend(es[1..], e, id);
      assert (es + [e])[1..] == es[1..] + [e];
    }
  }

  lemma {:induction false} WithoutMembers(es: seq<Entry>, id: nat)
    ensures forall e :: e in Without(es, id) <==> e in es && e.id != id
  {
    if es != [] {
      WithoutMembers(es[1..], id);
      assert forall e :: e in es <==> e == es[0] || e in es[1..];
    }
  }

  class CancellationState {
    var cancelled: bool
    var callbacks: seq<Entry>
    var nextId: nat

    ghost function View(): State
      reads this
    {
      State(cancelled, callbacks, nextId)
    }

    constructor ()
      ensures View() == FRESH
    {
      cancelled, callbacks, nextId := false, [], 0;
    }

    /** The locked part of `onCancel`: an id, or None when the callback must run right away. */
    method OnCancel(callback: nat) returns (id: Option<nat>)
      modifies this
      ensures View() == AfterRegister(old(View()), callback)
      ensures id == if old(cancelled) then None else Some(old(nextId))
      ensures callbacks == old(callbacks) + if old(cancelled) then [] else [Entry(old(nextId), callback)]
    {
      if cancelled {
        return None;
      }
      id := Some(nextId);
      nextId := nextId + 1;
      callbacks := callbacks + [Entry(id.value, callback)];
    }

    method RemoveCallback(id: nat)
      modifies this
      ensures View() == AfterRemove(old(View()), id)
      ensures forall e :: e in callbacks <==> e in old(callbacks) && e.id != id
    {
      var kept: seq<Entry> := [];
      for i := 0 to |callbacks|
        invariant View() == old(View())
        invariant i <= |callbacks| && kept == Without(callbacks[..i], id)
      {
        WithoutAppend(callbacks[..i], callbacks[i], id);
        assert callbacks[..i + 1] == callbacks[..i] + [callbacks[i]];
        if callbacks[i].id != id {
          kept := kept + [callbacks[i]];
        }
      }
      assert callbacks[..|callbacks|] == callbacks;
      WithoutMembers(callbacks, id);
      callbacks := kept;
    }

    /** The locked part of `cancel`: what is left to run, in order. */
    method Cancel() returns (toRun: seq<Entry>)
      modifies this
      ensures View() == AfterCancel(old(View()))
      ensures toRun == if old(cancelled) then [] else old(callbacks)
      ensures cancelled && callbacks == if old(cancelled) then old(callbacks) else []
    {
      toRun := [];
      if !cancelled {
        cancelled := true;
        toRun, callbacks := callbacks, [];
      }
    }
  }

  // ----- tokens, sources and registrations in use -----

  /** `made` counts `onCancel` calls. `toRun` is what the cancelling thread still has to run,
      `immediate` the callbacks that late `onCancel` calls still have to run, `ran` what has run.
      `swapped` and `late` record which callbacks the swap found and which registered after it. */
  datatype World = World(
    state: State,
    handles: map<nat, Option<nat>>,
    made: nat,
    toRun: seq<Entry>,
    immediate: set<nat>,
    ran: seq<nat>,
    swapped: set<nat>,
    late: set<nat>)

  datatype Event =
    | OnCancel(handle: nat)
    | RunImmediate(callback: nat)
    | Cancel
    | RunNext
    | Reset(handle: nat)
    | Move(from: nat, to: nat)

  predicate Enabled(w: World, e: Event) {
    match e
    case OnCancel(h) => h !in w.handles
    case RunImmediate(cb) => cb in w.immediate
    case Cancel => true
    case RunNext => w.toRun != []
    case Reset(h) => h in w.handles
    case Move(from, to) => from in w.handles
  }

  function Callbacks(es: seq<Entry>): set<nat> {
    set e | e in es :: e.callback
  }

  /** Unregisters what the handle holds and empties it. */
  function ResetStep(w: World, h: nat): World {
    if h in w.handles && w.handles[h].Some?
    then w.(state := AfterRemove(w.state, w.handles[h].value), handles := w.handles[h := None])
    else w
  }

  function Step(w: World, e: Event): World
    requires Enabled(w, e)
  {
    match e
    case OnCancel(h) =>
      w.(state := AfterRegister(w.state, w.made), made := w.made + 1,
         handles := w.handles[h := if w.state.cancelled then None else Some(w.state.nextId)],
         immediate := if w.state.cancelled then w.immediate + {w.made} else w.immediate,
         late := if w.state.cancelled then w.late + {w.made} else w.late)
    case RunImmediate(cb) => w.(immediate := w.immediate - {cb}, ran := w.ran + [cb])
    case Cancel =>
      if w.state.cancelled then w
      else w.(state := AfterCancel(w.state), toRun := w.state.callbacks, swapped := Callbacks(w.state.callbacks))
    case RunNext => w.(toRun := w.toRun[1..], ran := w.ran + [w.toRun[0].callback])
    case Reset(h) => ResetStep(w, h)
    case Move(from, to) =>
      if from == to then w
      else
        var r := ResetStep(w, to);
        r.(handles := r.handles[to := r.handles[from]][from := None])
  }

  const START := World(FRESH, map[], 0, [], {}, [], {}, {})

  ghost predicate ValidRun(w: World, es: seq<Event>)
    decreases |es|
  {
    es == [] || (Enabled(w, es[0]) && ValidRun(Step(w, es[0]), es[1..]))
  }

  ghost function Play(w: World, es: seq<Event>): World
    requires ValidRun(w, es)
    decreases |es|
  {
    if es == [] then w else Play(Step(w, es[0]), es[1..])
  }

  // ----- what every step keeps -----

  ghost predicate Distinct<T>(s: seq<T>) {
    forall i, j :: 0 <= i < j < |s| ==> s[i] != s[j]
  }

  ghost predicate DistinctEntries(es: seq<Entry>) {
    forall i, j :: 0 <= i < j < |es| ==> es[i].id != es[j].id && es[i].callback != es[j].callback
  }

  /** Ids are unique in the list, at most one handle holds each, and after cancellation the list
      is empty for good. */
  ghost predicate ListOk(w: World) {
    && DistinctEntries(w.state.callbacks)
    && (forall e :: e in w.state.callbacks ==> e.id < w.state.nextId && e.callback < w.made)
    && (w.state.cancelled ==> w.state.callbacks == [])
    && (forall h :: h in w.handles && w.handles[h].Some? ==> w.handles[h].value < w.state.nextId)
    && (forall g, h :: g in w.handles && h in w.handles && g != h && w.handles[g].Some? ==>
          w.handles[g] != w.handles[h])
  }

  /** A callback is in one place only: listed, about to run, or run. */
  ghost predicate PlacesOk(w: World) {
    && DistinctEntries(w.toRun) && Distinct(w.ran)
    && (forall e :: e in w.toRun ==> e.callback < w.made)
    && (forall cb :: cb in w.immediate || cb in w.ran ==> cb < w.made)
    && (!w.state.cancelled ==> w.toRun == [] && w.immediate == {} && w.ran == [] && w.swapped == {} && w.late == {})
    && Callbacks(w.toRun) !! w.immediate
    && (forall cb :: cb in w.ran ==> cb !in w.immediate && cb !in Callbacks(w.toRun))
  }

  /** What the swap found or registered later has run or is about to, and nothing else has. */
  ghost predicate OutcomeOk(w: World) {
    && (forall cb :: cb in w.swapped <==> cb in Callbacks(w.toRun) || (cb in w.ran && cb !in w.late))
    && (forall cb :: cb in w.late <==> cb in w.immediate || (cb in w.ran && cb !in w.swapped))
    && w.swapped !! w.late
    && (forall cb :: cb in w.swapped || cb in w.late ==> cb < w.made)
  }

  ghost predicate Inv(w: World) {
    ListOk(w) && PlacesOk(w) && OutcomeOk(w)
  }

  lemma {:induction false} WithoutKeeps(es: seq<Entry>, id: nat)
    requires DistinctEntries(es)
    ensures DistinctEntries(Without(es, id))
    ensures forall e :: e in Without(es, id) <==> e in es && e.id != id
  {
    if es != [] {
      WithoutKeeps(es[1..], id);
      assert forall e :: e in es <==> e == es[0] || e in es[1..];
      forall e | e in Without(es[1..], id)
        ensures e.id != es[0].id && e.callback != es[0].callback
      {
        assert e in es[1..];
      }
    }
  }

  lemma ResetKeepsInv(w: World, h: nat)
    requires Inv(w)
    ensures Inv(ResetStep(w, h))
  {
    if h in w.handles && w.handles[h].Some? {
      WithoutKeeps(w.state.callbacks, w.handles[h].value);
    }
  }

  lemma RunNextKeepsInv(w: World)
    requires Inv(w) && w.toRun != []
    ensures Inv(Step(w, RunNext))
  {
    var first, rest := w.toRun[0], w.toRun[1..];
    assert Callbacks(w.toRun) == {first.callback} + Callbacks(rest) by {
      assert forall e :: e in w.toRun <==> e == first || e in rest;
    }
    assert first.callback in Callbacks(w.toRun);
    assert first.callback !in Callbacks(rest);
  }

  lemma RegisterKeepsInv(w: World, h: nat)
    requires Inv(w) && h !in w.handles
    ensures Inv(Step(w, OnCancel(h)))
  {
  }

  lemma RunImmediateKeepsInv(w: World, cb: nat)
    requires Inv(w) && cb in w.immediate
    ensures Inv(Step(w, RunImmediate(cb)))
  {
  }

  lemma StepKeepsInv(w: World, e: Event)
    requires Inv(w) && Enabled(w, e)
    ensures Inv(Step(w, e))
  {
    match e
    case OnCancel(h) => RegisterKeepsInv(w, h);
    case RunImmediate(cb) => RunImmediateKeepsInv(w, cb);
    case Cancel =>
    case RunNext => RunNextKeepsInv(w);
    case Reset(h) => ResetKeepsInv(w, h);
    case Move(from, to) => ResetKeepsInv(w, to);
  }

  lemma {:induction false} RunKeepsInv(w: World, es: seq<Event>)
    requires Inv(w) && ValidRun(w, es)
    ensures Inv(Play(w, es))
    ensures w.state.cancelled ==> Play(w, es).state.cancelled && Play(w, es).swapped == w.swapped
    ensures forall cb :: cb in w.ran ==> cb in Play(w, es).ran
    decreases |es|
  {
    if es != [] {
      StepKeepsInv(w, es[0]);
      RunKeepsInv(Step(w, es[0]), es[1..]);
    }
  }

  /** Over every interleaving a callback runs at most once; and once nobody has one left to run,
      exactly those have run that the swap found or that registered after cancellation. */
  lemma CallbacksRunOnce(es: seq<Event>)
    requires ValidRun(START, es)
    ensures var w := Play(START, es);
      && Distinct(w.ran)
      && (w.toRun == [] && w.immediate == {} ==> forall cb :: cb in w.ran <==> cb in w.swapped || cb in w.late)
      && (forall cb :: cb in w.ran ==> cb in w.swapped || cb in w.late)
  {
    RunKeepsInv(START, es);
  }

  /** What `cancel` swaps out is the list at that moment, to be run in its order; from then on the
      list stays empty and the swap is never repeated, whatever registers, resets or cancels. */
  lemma CancelledForever(before: seq<Event>, after: seq<Event>)
    requires ValidRun(START, before)
    requires ValidRun(Step(Play(START, before), Cancel), after)
    ensures var w := Play(START, before);
      var cancelled := Step(w, Cancel);
      var end := Play(cancelled, after);
      && (!w.state.cancelled ==> cancelled.toRun == w.state.callbacks && end.swapped == Callbacks(w.state.callbacks))
      && end.state.cancelled && end.state.callbacks == []
  {
    RunKeepsInv(START, before);
    StepKeepsInv(Play(START, before), Cancel);
    RunKeepsInv(Step(Play(START, before), Cancel), after);
  }

  /** Resetting (or overwriting by a move) one registration leaves every other one listed. */
  lemma ResetRemovesOnlyItsOwn(es: seq<Event>, h: nat, g: nat, e: Entry)
    requires ValidRun(START, es)
    requires var w := Play(START, es); h in w.handles && g in w.handles && g != h && w.handles[g] == Some(e.id)
    ensures var w := Play(START, es);
      e in w.state.callbacks <==> e in Step(w, Reset(h)).state.callbacks
  {
    RunKeepsInv(START, es);
    var w := Play(START, es);
    if w.handles[h].Some? {
      WithoutKeeps(w.state.callbacks, w.handles[h].value);
    }
  }

  // ----- what a reset is for -----

  /** Ids and callbacks are numbered alike, and what a handle holds is listed, or was taken by the
      swap. */
  ghost predicate HeldOk(w: World) {
    && (!w.state.cancelled ==> w.state.nextId == w.made)
    && (forall e :: e in w.state.callbacks || e in w.toRun ==> e.id == e.callback)
    && (forall h :: h in w.handles && w.handles[h].Some? ==>
          if w.state.cancelled then w.handles[h].value in w.swapped
          else Entry(w.handles[h].value, w.handles[h].value) in w.state.callbacks)
  }

  lemma ResetKeepsHeld(w: World, h: nat)
    requires Inv(w) && HeldOk(w)
    ensures HeldOk(ResetStep(w, h))
  {
    if h in w.handles && w.handles[h].Some? {
      WithoutKeeps(w.state.callbacks, w.handles[h].value);
    }
  }

  lemma StepKeepsHeld(w: World, e: Event)
    requires Inv(w) && HeldOk(w) && Enabled(w, e)
    ensures HeldOk(Step(w, e))
  {
    match e
    case Reset(h) => ResetKeepsHeld(w, h);
    case Move(from, to) => ResetKeepsHeld(w, to);
    case _ =>
  }

  lemma {:induction false} RunKeepsHeld(w: World, es: seq<Event>)
    requires Inv(w) && HeldOk(w) && ValidRun(w, es)
    ensures Inv(Play(w, es)) && HeldOk(Play(w, es))
    decreases |es|
  {
    if es != [] {
      StepKeepsInv(w, es[0]);
      StepKeepsHeld(w, es[0]);
      RunKeepsHeld(Step(w, es[0]), es[1..]);
    }
  }

  /** The callback was registered and is nowhere any more. */
  ghost predicate Gone(w: World, cb: nat) {
    && cb < w.made && cb !in Callbacks(w.state.callbacks)
    && cb !in Callbacks(w.toRun) && cb !in w.immediate && cb !in w.ran
  }

  lemma ResetKeepsGone(w: World, h: nat, cb: nat)
    requires Inv(w) && Gone(w, cb)
    ensures Gone(ResetStep(w, h), cb)
  {
    if h in w.handles && w.handles[h].Some? {
      WithoutKeeps(w.state.callbacks, w.handles[h].value);
    }
  }

  lemma StepKeepsGone(w: World, e: Event, cb: nat)
    requires Inv(w) && Gone(w, cb) && Enabled(w, e)
    ensures Gone(Step(w, e), cb)
  {
    match e
    case Reset(h) => ResetKeepsGone(w, h, cb);
    case Move(from, to) => ResetKeepsGone(w, to, cb);
    case RunNext =>
      assert w.toRun[0].callback in Callbacks(w.toRun);
      assert forall x :: x in w.toRun[1..] ==> x in w.toRun;
    case _ =>
  }

  lemma {:induction false} GoneForGood(w: World, es: seq<Event>, cb: nat)
    requires Inv(w) && Gone(w, cb) && ValidRun(w, es)
    ensures cb !in Play(w, es).ran
    decreases |es|
  {
    if es != [] {
      StepKeepsInv(w, es[0]);
      StepKeepsGone(w, es[0], cb);
      GoneForGood(Step(w, es[0]), es[1..], cb);
    }
  }

  lemma PlayOne(w: World, e: Event, rest: seq<Event>)
    requires Enabled(w, e) && ValidRun(Step(w, e), rest)
    ensures ValidRun(w, [e] + rest) && Play(w, [e] + rest) == Play(Step(w, e), rest)
  {
    assert ([e] + rest)[1..] == rest;
  }

  /** What the swap took can still be run. */
  lemma {:induction false} TakenCanRun(w: World, cb: nat) returns (es: seq<Event>)
    requires Inv(w) && (cb in w.ran || cb in Callbacks(w.toRun))
    ensures ValidRun(w, es) && cb in Play(w, es).ran
    decreases |w.toRun|
  {
    es := [];
    if cb !in w.ran {
      var next := Step(w, RunNext);
      RunNextKeepsInv(w);
      assert forall x :: x in w.toRun ==> x == w.toRun[0] || x in w.toRun[1..];
      var rest := TakenCanRun(next, cb);
      PlayOne(w, RunNext, rest);
      es := [RunNext] + rest;
    }
  }

  ghost predicate CanRun(w: World, cb: nat) {
    exists es :: ValidRun(w, es) && cb in Play(w, es).ran
  }

  /** After a reset the callback that the handle held, which has the number of its id, has run or can
      still run if and only if cancellation had already swapped it out of the list. */
  lemma ResetStopsItsCallbackIff(es: seq<Event>, h: nat)
    requires ValidRun(START, es)
    requires var w := Play(START, es); h in w.handles && w.handles[h].Some?
    ensures var w := Play(START, es);
      var cb := w.handles[h].value;
      && (CanRun(Step(w, Reset(h)), cb) <==> cb in w.swapped)
      && (cb in w.swapped <==> w.state.cancelled)
  {
    RunKeepsHeld(START, es);
    var w := Play(START, es);
    var cb, after := w.handles[h].value, Step(w, Reset(h));
    StepKeepsInv(w, Reset(h));
    if w.state.cancelled {
      var more := TakenCanRun(after, cb);
    } else {
      ResetUnlists(w, h);
      forall more | ValidRun(after, more)
        ensures cb !in Play(after, more).ran
      {
        GoneForGood(after, more, cb);
      }
    }
  }

  lemma ResetUnlists(w: World, h: nat)
    requires Inv(w) && HeldOk(w) && !w.state.cancelled && h in w.handles && w.handles[h].Some?
    ensures Gone(ResetStep(w, h), w.handles[h].value)
  {
    WithoutKeeps(w.state.callbacks, w.handles[h].value);
  }

  /** A reset that comes between the swap and the run comes too late. */
  lemma LateResetRun()
    ensures var es := [OnCancel(0), Cancel, Reset(0), RunNext];
      ValidRun(START, es) && Play(START, es).ran == [0]
  {
    var w1 := Step(START, OnCancel(0));
    var w2 := Step(w1, Cancel);
    var w3 := Step(w2, Reset(0));
    PlayOne(w3, RunNext, []);
    PlayOne(w2, Reset(0), [RunNext]);
    PlayOne(w1, Cancel, [Reset(0), RunNext]);
    PlayOne(START, OnCancel(0), [Cancel, Reset(0), RunNext]);
    assert [OnCancel(0)] + [Cancel, Reset(0), RunNext] == [OnCancel(0), Cancel, Reset(0), RunNext];
    assert [Cancel] + [Reset(0), RunNext] == [Cancel, Reset(0), RunNext];
    assert [Reset(0)] + [RunNext] == [Reset(0), RunNext] && [RunNext] + [] == [RunNext];
  }

  // ----- from the registration to the run -----

  /** What `onCancel` does in any state of a run: before cancellation its handle holds the callback, and
      a `cancel` that comes while it does takes it to be run; after cancellation the callback is to be
      run at once and the handle holds nothing. */
  lemma RegistrationTakesEffect(es: seq<Event>, h: nat)
    requires ValidRun(START, es) && h !in Play(START, es).handles
    ensures var w := Play(START, es);
      var cb, next := w.made, Step(w, OnCancel(h));
      && next.made == w.made + 1
      && (!w.state.cancelled ==> next.handles[h] == Some(cb) && Entry(cb, cb) in next.state.callbacks)
      && (w.state.cancelled ==> next.handles[h] == None && cb in next.immediate && next.state == w.state)
  {
    RunKeepsHeld(START, es);
  }

  /** A callback that a handle holds when `cancel` comes is among those it runs. */
  lemma HeldCallbackIsSwapped(es: seq<Event>, h: nat)
    requires ValidRun(START, es)
    requires var w := Play(START, es); !w.state.cancelled && h in w.handles && w.handles[h].Some?
    ensures var w := Play(START, es);
      var cb := w.handles[h].value;
      Entry(cb, cb) in Step(w, Cancel).toRun && cb in Step(w, Cancel).swapped
  {
    RunKeepsHeld(START, es);
  }

  /** What is to be run is run, one step each, and nothing takes it away. */
  lemma DueStaysDue(w: World, e: Event, cb: nat)
    requires Inv(w) && Enabled(w, e) && (cb in w.immediate || cb in Callbacks(w.toRun))
    ensures var next := Step(w, e); cb in next.immediate || cb in Callbacks(next.toRun) || cb in next.ran
  {
    if e.RunNext? {
      assert forall x :: x in w.toRun ==> x == w.toRun[0] || x in w.toRun[1..];
    }
  }
}
