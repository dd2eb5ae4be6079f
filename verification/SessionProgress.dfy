/** A refresh request that is not lost is dispatched and answered by what the session does itself. */
module SessionProgress {
  import opened Basics
  import opened SessionRefresh

  /** What happens by itself, without another request or filter change. */
  predicate OwnStep(e: Event) {
    !e.Request? && !e.FilterChange?
  }

  ghost predicate AllOwn(es: seq<Event>) {
    forall e :: e in es ==> OwnStep(e)
  }

  ghost predicate GetsTo(w: World, v: World) {
    exists es :: ValidRun(w, es) && AllOwn(es) && Play(w, es) == v
  }

  /** What is known of a state of a run, and kept by its steps. */
  ghost predicate Sound(w: World) {
    Inv(w) && OwedOk(w)
  }

  lemma GetsToSelf(w: World)
    ensures GetsTo(w, w)
  {
    assert ValidRun(w, []) && AllOwn([]) && Play(w, []) == w;
  }

  lemma GetsOn(u: World, v: World, w: World)
    requires GetsTo(u, v) && GetsTo(v, w)
    ensures GetsTo(u, w)
  {
    var a :| ValidRun(u, a) && AllOwn(a) && Play(u, a) == v;
    var b :| ValidRun(v, b) && AllOwn(b) && Play(v, b) == w;
    PlayAppend(u, a, b);
  }

  lemma GetsNext(v: World, e: Event) returns (next: World)
    requires Sound(v) && Enabled(v, e) && OwnStep(e)
    ensures next == Step(v, e) && GetsTo(v, next) && Sound(next)
  {
    PlayOne(v, e, []);
    assert AllOwn([e] + []);
    StepKeepsInv(v, e);
    StepKeepsOwed(v, e);
    next := Step(v, e);
  }

  /** A step that takes a task towards its end, and how many there are. */
  function TowardsEnd(p: Phase, g: nat): Event
    requires !p.Ending? && !p.Done?
  {
    match p
    case Posted => StartLoad(g)
    case Loading(_) => LoadFails(g)
    case RefsClaimed => EmitRefs(g)
    case Walking => WalkEnds(g)
    case ChunkPublished(_) => EmitGraph(g)
  }

  function StepsToEnd(p: Phase): nat {
    if p.Ending? || p.Done? then 0 else if p.Loading? || p.Walking? then 1 else 2
  }

  lemma TaskMoves(w: World, g: nat)
    requires Inv(w) && 0 < g < |w.phases| && !w.phases[g].Ending? && !w.phases[g].Done?
    ensures var e := TowardsEnd(w.phases[g], g);
      && Enabled(w, e) && OwnStep(e) && Step(w, e).session == w.session && |Step(w, e).phases| == |w.phases|
      && !Step(w, e).phases[g].Done? && StepsToEnd(Step(w, e).phases[g]) < StepsToEnd(w.phases[g])
  {
  }

  /** The newest task can go on to its end without touching anything but itself and the events. */
  lemma {:induction false} TaskEnds(w: World) returns (v: World)
    requires Sound(w) && w.session.debouncer.running
    ensures GetsTo(w, v) && Sound(v) && At(v, v.session.generation, Ending) && v.session == w.session
    decreases StepsToEnd(w.phases[|w.phases| - 1])
  {
    GetsToSelf(w);
    v := w;
    var g := w.session.generation;
    if !w.phases[g].Ending? {
      TaskMoves(w, g);
      var next := GetsNext(w, TowardsEnd(w.phases[g], g));
      v := TaskEnds(next);
      GetsOn(w, next, v);
    }
  }

  /** A request folded into a run asks for its follow-up when the run finishes. */
  lemma RunGivesWay(w: World) returns (v: World)
    requires Sound(w) && w.session.debouncer.running && w.session.debouncer.pending
    ensures GetsTo(w, v) && Sound(v) && v.session.debouncer.pending && !v.session.debouncer.running
    ensures v.rearms > 0 && v.session.requestSeq == w.session.requestSeq
  {
    var ended := TaskEnds(w);
    v := GetsNext(ended, Finish(ended.session.generation));
    GetsOn(w, ended, v);
  }

  function Later(a: nat, b: nat): nat { if a < b then b else a }

  /** The newest dispatch covers every request and has not begun. */
  predicate CoversAll(w: World) {
    At(w, w.session.generation, Posted) && LastCovered(w) == w.session.requestSeq
  }

  /** Once the quiet period is over, a callback of the timer dispatches. */
  lemma CallbackDispatches(w: World) returns (v: World)
    requires Sound(w) && w.callback && Fires(w.session.debouncer, w.now)
    ensures GetsTo(w, v) && Sound(v) && v.session.requestSeq == w.session.requestSeq && CoversAll(v)
  {
    v := GetsNext(w, TimerCallback);
  }

  /** And so does a timer that is set. */
  lemma TimerDispatches(w: World) returns (v: World)
    requires Sound(w) && !w.callback && w.timer.Some? && Fires(w.session.debouncer, w.now)
    ensures GetsTo(w, v) && Sound(v) && v.session.requestSeq == w.session.requestSeq && CoversAll(v)
  {
    var due := GetsNext(w, Tick(Later(w.now, w.timer.value)));
    var fired := GetsNext(due, TimerFires);
    v := CallbackDispatches(fired);
    GetsOn(w, due, fired);
    GetsOn(w, fired, v);
  }

  lemma QuietIsDispatched(w: World) returns (v: World)
    requires Sound(w) && Driven(w) && Fires(w.session.debouncer, w.now)
    ensures GetsTo(w, v) && Sound(v) && v.session.requestSeq == w.session.requestSeq && CoversAll(v)
  {
    if w.callback {
      v := CallbackDispatches(w);
    } else if w.timer.Some? {
      v := TimerDispatches(w);
    } else {
      var armed := GetsNext(w, if w.arms > 0 then ArmDelay else ArmZero);
      v := TimerDispatches(armed);
      GetsOn(w, armed, v);
    }
  }

  lemma IdleIsDispatched(w: World) returns (v: World)
    requires Sound(w) && Driven(w) && w.session.debouncer.pending && !w.session.debouncer.running
    ensures GetsTo(w, v) && Sound(v) && v.session.requestSeq == w.session.requestSeq && CoversAll(v)
  {
    var quiet := GetsNext(w, Tick(Later(w.now, w.session.debouncer.lastEvent + DELAY)));
    v := QuietIsDispatched(quiet);
    GetsOn(w, quiet, v);
  }

  lemma DrivenIsDispatched(w: World) returns (v: World)
    requires Sound(w) && Driven(w) && LastCovered(w) < w.session.requestSeq
    ensures GetsTo(w, v) && Sound(v) && v.session.requestSeq == w.session.requestSeq && CoversAll(v)
  {
    if w.session.debouncer.running {
      var idle := RunGivesWay(w);
      v := IdleIsDispatched(idle);
      GetsOn(w, idle, v);
    } else {
      v := IdleIsDispatched(w);
    }
  }

  lemma StalledStays(w: World, e: Event)
    requires Sound(w) && Stalled(w) && Enabled(w, e) && OwnStep(e)
    ensures Stalled(Step(w, e)) && Step(w, e).session.requestSeq == w.session.requestSeq
  {
  }

  lemma {:induction false} StalledForGood(w: World, es: seq<Event>)
    requires Sound(w) && Stalled(w) && ValidRun(w, es) && AllOwn(es)
    ensures Stalled(Play(w, es)) && Play(w, es).session.requestSeq == w.session.requestSeq
    decreases |es|
  {
    if es != [] {
      StalledStays(w, es[0]);
      StepKeepsInv(w, es[0]);
      StepKeepsOwed(w, es[0]);
      StalledForGood(Step(w, es[0]), es[1..]);
    }
  }

  ghost predicate CanBeCovered(w: World) {
    exists v :: GetsTo(w, v) && LastCovered(v) >= w.session.requestSeq
  }

  lemma {:induction false} RunIsSound(w: World, es: seq<Event>)
    requires Sound(w) && ValidRun(w, es)
    ensures Sound(Play(w, es))
    decreases |es|
  {
    if es != [] {
      StepKeepsInv(w, es[0]);
      StepKeepsOwed(w, es[0]);
      RunIsSound(Step(w, es[0]), es[1..]);
    }
  }

  /** In every run, what the session does by itself can bring a dispatch that covers every request made
      so far if and only if the state is not stalled. */
  lemma RequestsAreCoveredIff(w: World, es: seq<Event>)
    requires Initial(w) && ValidRun(w, es)
    ensures CanBeCovered(Play(w, es)) <==> !Stalled(Play(w, es))
  {
    RunIsSound(w, es);
    var u := Play(w, es);
    if Stalled(u) {
      forall v | GetsTo(u, v)
        ensures LastCovered(v) < u.session.requestSeq
      {
        var more :| ValidRun(u, more) && AllOwn(more) && Play(u, more) == v;
        StalledForGood(u, more);
      }
    } else if LastCovered(u) < u.session.requestSeq {
      var v := DrivenIsDispatched(u);
    } else {
      GetsToSelf(u);
    }
  }

  /** An event has told the caller that request `n` is covered. */
  ghost predicate Answered(w: World, n: nat) {
    exists d :: d in w.delivered && d.RefsUpdated? && n <= d.covers
  }

  /** In every run without the losing step, a request that no dispatch covers yet can still be
      dispatched, loaded, published and answered by REFS_UPDATED, without another request. */
  lemma EveryRequestIsAnswered(w: World, es: seq<Event>) returns (v: World)
    requires Initial(w) && ValidRun(w, es) && NeverRearmsTooEarly(w, es)
    requires LastCovered(Play(w, es)) < Play(w, es).session.requestSeq
    ensures GetsTo(Play(w, es), v) && Answered(v, Play(w, es).session.requestSeq)
  {
    RunIsSound(w, es);
    NoRequestLost(w, es);
    var u := Play(w, es);
    var dispatched := DrivenIsDispatched(u);
    v := DispatchIsAnswered(dispatched);
    GetsOn(u, dispatched, v);
  }

  lemma DispatchIsAnswered(w: World) returns (v: World)
    requires Sound(w) && CoversAll(w)
    ensures GetsTo(w, v) && Answered(v, w.session.requestSeq)
  {
    var g := w.session.generation;
    var loading := GetsNext(w, StartLoad(g));
    var claimed := GetsNext(loading, ClaimRefs(g));
    v := GetsNext(claimed, EmitRefs(g));
    GetsOn(w, loading, claimed);
    GetsOn(w, claimed, v);
    assert RefsUpdated(g, v.covers[g]) in v.delivered;
  }
}
