/**
  The refresh, publish and coverage protocol of `Session` (src/capi/Session.cpp), with the
  `Debouncer`, `RefreshCoalescer` and `DelayTimer` it drives.

  `Session` holds the fields that the two mutexes guard. The class `SessionObject` updates
  them in place, one method per critical section, each proved against a function on values.
  `World` adds what lives outside the object: the timer, outstanding `arm()` calls, the pool
  tasks and the events delivered to the caller. `Step` interleaves all of them.
*/
module SessionRefresh {
  import opened Basics

  // ----- Debouncer and RefreshCoalescer -----

  const DELAY: nat := 150

  datatype Debouncer = Debouncer(lastEvent: nat, pending: bool, running: bool, dirty: bool)

  const FRESH := Debouncer(0, false, false, false)

  function NotifyEvent(d: Debouncer, now: nat): Debouncer {
    d.(lastEvent := now, pending := true)
  }

  predicate Fires(d: Debouncer, now: nat) {
    !d.running && d.pending && d.lastEvent + DELAY <= now
  }

  function ShouldFire(d: Debouncer, now: nat): Debouncer {
    if d.running then (if d.pending then d.(dirty := true) else d)
    else if Fires(d, now) then d.(pending := false, running := true)
    else d
  }

  function FinishRun(d: Debouncer): Debouncer {
    if d.dirty then Debouncer(0, true, false, false) else d.(running := false)
  }

  // ----- the session object -----

  /** A ref snapshot, known by the dispatch that loaded it and by how many refresh
      requests had been made when its read began. */
  datatype RefSnapshot = RefSnapshot(dispatch: nat, requestsAtStart: nat)
  datatype GraphChunk = GraphChunk(dispatch: nat, complete: bool)

  datatype Session = Session(
    requestSeq: nat,
    debouncer: Debouncer,
    generation: nat,
    published: nat,
    refs: Option<RefSnapshot>,
    graph: Option<GraphChunk>)

  const OPENED := Session(0, FRESH, 0, 0, None, None)

  function AfterRequest(s: Session, now: nat): Session {
    s.(requestSeq := s.requestSeq + 1, debouncer := ShouldFire(NotifyEvent(s.debouncer, now), now))
  }

  function AfterTimeout(s: Session, now: nat): Session {
    s.(debouncer := ShouldFire(s.debouncer, now),
       generation := if Fires(s.debouncer, now) then s.generation + 1 else s.generation)
  }

  function AfterFireNow(s: Session, now: nat): Session {
    s.(debouncer := ShouldFire(NotifyEvent(FRESH, 0), now), generation := s.generation + 1)
  }

  predicate RunsAgain(s: Session, g: nat) {
    g != 0 && g == s.generation && s.debouncer.dirty
  }

  function AfterFinish(s: Session, g: nat): Session {
    if g == 0 || g != s.generation then s else s.(debouncer := FinishRun(s.debouncer))
  }

  function AfterClaim(s: Session, g: nat): Session {
    if g < s.published then s else s.(published := g)
  }

  function AfterPublishRefs(s: Session, g: nat, snapshot: RefSnapshot): Session {
    if g < s.published then s else s.(published := g, refs := Some(snapshot))
  }

  function AfterPublishGraph(s: Session, g: nat, chunk: GraphChunk): Session {
    if g < s.published then s else s.(published := g, graph := Some(chunk))
  }

  class SessionObject {
    var requestSeq: nat
    var debouncer: Debouncer
    var generation: nat
    var published: nat
    var refs: Option<RefSnapshot>
    var graph: Option<GraphChunk>

    ghost function View(): Session
      reads this
    {
      Session(requestSeq, debouncer, generation, published, refs, graph)
    }

    constructor ()
      ensures View() == OPENED
    {
      requestSeq, debouncer, generation, published := 0, FRESH, 0, 0;
      refs, graph := None, None;
    }

    method RefreshHistory(now: nat) returns (request: nat, needsArm: bool)
      modifies this
      ensures View() == AfterRequest(old(View()), now)
      ensures request == requestSeq == old(requestSeq) + 1
      ensures needsArm == !old(debouncer).running
      ensures debouncer.pending && debouncer.lastEvent == now && debouncer.running == old(debouncer).running
      ensures debouncer.dirty == (old(debouncer).dirty || old(debouncer).running)
    {
      requestSeq := requestSeq + 1;
      request := requestSeq;
      var wasRunning := debouncer.running;
      debouncer := NotifyEvent(debouncer, now);
      debouncer := ShouldFire(debouncer, now);
      needsArm := !wasRunning;
    }

    /** `onRefreshTimerFired`'s critical section; generation 0 means the quiet period is not over. */
    method OnTimerFired(now: nat) returns (g: nat, covers: nat)
      modifies this
      ensures View() == AfterTimeout(old(View()), now)
      ensures var d := old(debouncer);
        var due := !d.running && d.pending && d.lastEvent + 150 <= now;
        && generation == old(generation) + (if due then 1 else 0)
        && g == (if due then generation else 0) && (due ==> covers == requestSeq)
    {
      g, covers := 0, 0;
      if Fires(debouncer, now) {
        debouncer := debouncer.(pending := false, running := true);
        generation := generation + 1;
        g := generation;
        covers := requestSeq;
      } else {
        debouncer := ShouldFire(debouncer, now);
      }
    }

    method SetHistoryFilter(now: nat) returns (g: nat, covers: nat)
      modifies this
      ensures View() == AfterFireNow(old(View()), now)
      ensures g == generation == old(generation) + 1 && covers == requestSeq == old(requestSeq)
    {
      debouncer := FRESH;
      debouncer := NotifyEvent(debouncer, 0);
      debouncer := ShouldFire(debouncer, now);
      generation := generation + 1;
      g, covers := generation, requestSeq;
    }

    method FinishRefresh(g: nat) returns (again: bool)
      modifies this
      ensures View() == AfterFinish(old(View()), g)
      ensures again == (g != 0 && g == old(generation) && old(debouncer).dirty)
      ensures g != old(generation) ==> View() == old(View())
    {
      again := false;
      if g != 0 && g == generation {
        debouncer := debouncer.(running := false);
        if debouncer.dirty {
          debouncer := Debouncer(0, true, debouncer.running, false);
          again := true;
        }
      }
    }

    method ClaimPublishLocked(g: nat) returns (claimed: bool)
      modifies this
      ensures View() == AfterClaim(old(View()), g)
      ensures View() == if claimed then old(View()).(published := g) else old(View())
      ensures claimed == (old(published) <= g)
    {
      if g < published {
        return false;
      }
      published := g;
      return true;
    }

    method PublishRefs(g: nat, snapshot: RefSnapshot) returns (claimed: bool)
      modifies this
      ensures View() == AfterPublishRefs(old(View()), g, snapshot)
      ensures View() == if claimed then old(View()).(published := g, refs := Some(snapshot)) else old(View())
      ensures claimed == (old(published) <= g)
    {
      claimed := ClaimPublishLocked(g);
      if claimed {
        refs := Some(snapshot);
      }
    }

    method PublishGraph(g: nat, chunk: GraphChunk) returns (claimed: bool)
      modifies this
      ensures View() == AfterPublishGraph(old(View()), g, chunk)
      ensures View() == if claimed then old(View()).(published := g, graph := Some(chunk)) else old(View())
      ensures claimed == (old(published) <= g)
    {
      claimed := ClaimPublishLocked(g);
      if claimed {
        graph := Some(chunk);
      }
    }
  }

  // ----- the world around it -----

  /** Where one dispatched pool task stands. `Ending` is every path into `finishRefresh`. */
  datatype Phase =
    | Posted
    | Loading(began: nat)
    | RefsClaimed
    | Walking
    | ChunkPublished(complete: bool)
    | Ending
    | Done

  datatype Delivered =
    | RefsUpdated(dispatch: nat, covers: nat)
    | GraphUpdated(dispatch: nat, complete: bool)

  /** Dispatch g carries `covers[g]` and its pool task stands at `phases[g]`; slot 0 is unused.
      `arms` counts `arm(kDelay)` calls and `rearms` counts `arm(0)` calls that have been decided
      under the refresh lock and not yet carried out. */
  datatype World = World(
    session: Session,
    covers: seq<nat>,
    phases: seq<Phase>,
    now: nat,
    arms: nat,
    rearms: nat,
    timer: Option<nat>,
    callback: bool,
    delivered: seq<Delivered>)

  datatype Event =
    | Tick(to: nat)
    | Request
    | ArmDelay
    | ArmZero
    | TimerFires
    | TimerCallback
    | FilterChange
    | StartLoad(g: nat)
    | LoadFails(g: nat)
    | ClaimRefs(g: nat)
    | EmitRefs(g: nat)
    | Chunk(g: nat, complete: bool)
    | EmitGraph(g: nat)
    | WalkEnds(g: nat)
    | Finish(g: nat)

  predicate At(w: World, g: nat, p: Phase) {
    0 < g < |w.phases| && w.phases[g] == p
  }

  predicate IsLoading(w: World, g: nat) {
    0 < g < |w.phases| && w.phases[g].Loading?
  }

  predicate Enabled(w: World, e: Event) {
    match e
    case Tick(to) => w.now <= to
    case Request => true
    case ArmDelay => w.arms > 0
    case ArmZero => w.rearms > 0
    case TimerFires => w.timer.Some? && w.timer.value <= w.now && !w.callback
    case TimerCallback => w.callback
    case FilterChange => true
    case StartLoad(g) => At(w, g, Posted)
    case LoadFails(g) => IsLoading(w, g)
    case ClaimRefs(g) => IsLoading(w, g)
    case EmitRefs(g) => At(w, g, RefsClaimed) && g < |w.covers|
    case Chunk(g, _) => At(w, g, Walking)
    case EmitGraph(g) => 0 < g < |w.phases| && w.phases[g].ChunkPublished?
    case WalkEnds(g) => At(w, g, Walking)
    case Finish(g) => At(w, g, Ending)
  }

  function Move(w: World, g: nat, p: Phase): World
    requires g < |w.phases|
  {
    w.(phases := w.phases[g := p])
  }

  /** Adds the pool task for the generation the session has just handed out. */
  function Dispatch(w: World): World {
    w.(covers := w.covers + [w.session.requestSeq], phases := w.phases + [Posted])
  }

  function Step(w: World, e: Event): World
    requires Enabled(w, e)
  {
    match e
    case Tick(to) => w.(now := to)
    case Request =>
      w.(session := AfterRequest(w.session, w.now),
         arms := if w.session.debouncer.running then w.arms else w.arms + 1)
    case ArmDelay => w.(arms := w.arms - 1, timer := Some(w.now + DELAY))
    case ArmZero => w.(rearms := w.rearms - 1, timer := Some(w.now))
    case TimerFires => w.(timer := None, callback := true)
    case TimerCallback =>
      var next := w.(session := AfterTimeout(w.session, w.now), callback := false);
      if Fires(w.session.debouncer, w.now) then Dispatch(next) else next
    case FilterChange => Dispatch(w.(session := AfterFireNow(w.session, w.now)))
    case StartLoad(g) => Move(w, g, Loading(w.session.requestSeq))
    case LoadFails(g) => Move(w, g, Ending)
    case ClaimRefs(g) =>
      var snapshot := RefSnapshot(g, w.phases[g].began);
      Move(w.(session := AfterPublishRefs(w.session, g, snapshot)), g,
           if g < w.session.published then Ending else RefsClaimed)
    case EmitRefs(g) =>
      Move(w.(delivered := w.delivered + [RefsUpdated(g, w.covers[g])]), g, Walking)
    case Chunk(g, complete) =>
      Move(w.(session := AfterPublishGraph(w.session, g, GraphChunk(g, complete))), g,
           if g < w.session.published then Walking else ChunkPublished(complete))
    case EmitGraph(g) =>
      Move(w.(delivered := w.delivered + [GraphUpdated(g, w.phases[g].complete)]), g, Walking)
    case WalkEnds(g) => Move(w, g, Ending)
    case Finish(g) =>
      Move(w.(session := AfterFinish(w.session, g),
              rearms := if RunsAgain(w.session, g) then w.rearms + 1 else w.rearms), g, Done)
  }

  /** The steady clock is already past one delay when a session opens. */
  ghost predicate Initial(w: World) {
    w.now >= DELAY && w == World(OPENED, [0], [Done], w.now, 0, 0, None, false, [])
  }

  ghost predicate ValidRun(w: World, es: seq<Event>)
    decreases |es|
  {
    es == [] || (Enabled(w, es[0]) && ValidRun(Step(w, es[0]), es[1..]))
  }

  ghost function Play(w: World, es: seq<Event>): World
    requires ValidRun(w, es)
    decreases |es|
  {
    if es == [] then w else Play(Step(w, es[0]), es[1..])
  }

  // ----- what every step keeps -----

  /** Generations are handed out 1, 2, ... and a later dispatch covers at least as many requests. */
  ghost predicate TasksOk(w: World) {
    && |w.covers| == |w.phases| == w.session.generation + 1
    && (forall g, h :: 0 <= g <= h < |w.covers| ==> w.covers[g] <= w.covers[h])
    && w.covers[w.session.generation] <= w.session.requestSeq
    && (forall g :: 0 <= g < |w.phases| && w.phases[g].Loading? ==> w.covers[g] <= w.phases[g].began)
  }

  /** `refs_` was loaded by dispatch `publishedGeneration_`, by a read that began after every
      request that dispatch covers; whoever got past its claim is no newer than that. */
  ghost predicate PublishedOk(w: World) {
    var s := w.session;
    && s.published < |w.covers|
    && (s.refs.None? <==> s.published == 0)
    && (s.graph.Some? ==> 0 < s.graph.value.dispatch <= s.published)
    && (s.refs.Some? ==>
          s.refs.value.dispatch == s.published && w.covers[s.published] <= s.refs.value.requestsAtStart)
    && (forall g :: 0 <= g < |w.phases| && PastClaim(w.phases[g]) ==> g <= s.published)
  }

  predicate PastClaim(p: Phase) {
    p.RefsClaimed? || p.Walking? || p.ChunkPublished?
  }

  ghost predicate DeliveredOk(w: World) {
    forall d :: d in w.delivered && d.RefsUpdated? ==>
      0 < d.dispatch < |w.covers| && d.covers == w.covers[d.dispatch] && d.dispatch <= w.session.published
  }

  ghost predicate Inv(w: World) {
    TasksOk(w) && PublishedOk(w) && DeliveredOk(w)
  }

  lemma DispatchKeepsInv(w: World, next: World)
    requires Inv(w)
    requires next.session.generation == w.session.generation + 1
    requires next == Dispatch(w.(session := next.session, callback := next.callback))
    requires next.session.requestSeq == w.session.requestSeq && next.session.published == w.session.published
    requires next.session.refs == w.session.refs && next.session.graph == w.session.graph
    ensures Inv(next)
  {
  }

  lemma MoveKeepsInv(w: World, g: nat, p: Phase)
    requires Inv(w) && 0 < g < |w.phases|
    requires p.Loading? ==> w.covers[g] <= p.began
    requires PastClaim(p) ==> g <= w.session.published
    ensures Inv(Move(w, g, p))
  {
  }

  lemma ClaimRefsKeepsInv(w: World, g: nat)
    requires Inv(w) && IsLoading(w, g)
    ensures Inv(Step(w, ClaimRefs(g)))
  {
    var snapshot := RefSnapshot(g, w.phases[g].began);
    var claimed := w.(session := AfterPublishRefs(w.session, g, snapshot));
    MoveKeepsInv(claimed, g, if g < w.session.published then Ending else RefsClaimed);
  }

  lemma ChunkKeepsInv(w: World, g: nat, complete: bool)
    requires Inv(w) && At(w, g, Walking)
    ensures Inv(Step(w, Chunk(g, complete)))
  {
    var claimed := w.(session := AfterPublishGraph(w.session, g, GraphChunk(g, complete)));
    MoveKeepsInv(claimed, g, if g < w.session.published then Walking else ChunkPublished(complete));
  }

  lemma EmitKeepsInv(w: World, g: nat, d: Delivered)
    requires Inv(w) && 0 < g < |w.phases| && g <= w.session.published
    requires d.RefsUpdated? ==> d == RefsUpdated(g, w.covers[g])
    ensures Inv(Move(w.(delivered := w.delivered + [d]), g, Walking))
  {
    MoveKeepsInv(w.(delivered := w.delivered + [d]), g, Walking);
  }

  lemma InvIgnoresDebouncer(w: World, v: World)
    requires Inv(w) && v.covers == w.covers && v.phases == w.phases && v.delivered == w.delivered
    requires v.session == w.session.(debouncer := v.session.debouncer)
    ensures Inv(v)
  {
  }

  lemma FinishKeepsInv(w: World, g: nat)
    requires Inv(w) && At(w, g, Ending)
    ensures Inv(Step(w, Finish(g)))
  {
    var rearms := if RunsAgain(w.session, g) then w.rearms + 1 else w.rearms;
    var finished := w.(session := AfterFinish(w.session, g), rearms := rearms);
    InvIgnoresDebouncer(w, finished);
    MoveKeepsInv(finished, g, Done);
  }

  /** Requests, the clock and the timer touch no task and nothing published. */
  lemma InvIgnoresTimer(w: World, v: World)
    requires Inv(w) && v.covers == w.covers && v.phases == w.phases && v.delivered == w.delivered
    requires w.session.requestSeq <= v.session.requestSeq
    requires v.session == w.session.(debouncer := v.session.debouncer, requestSeq := v.session.requestSeq)
    ensures Inv(v)
  {
  }

  predicate OfTimer(w: World, e: Event) {
    e.Tick? || e.Request? || e.ArmDelay? || e.ArmZero? || e.TimerFires? ||
    (e.TimerCallback? && !Fires(w.session.debouncer, w.now))
  }

  lemma TimerKeepsInv(w: World, e: Event)
    requires Inv(w) && Enabled(w, e) && OfTimer(w, e)
    ensures Inv(Step(w, e))
  {
    InvIgnoresTimer(w, Step(w, e));
  }

  lemma NewDispatchKeepsInv(w: World, e: Event)
    requires Inv(w) && Enabled(w, e)
    requires e.FilterChange? || (e.TimerCallback? && Fires(w.session.debouncer, w.now))
    ensures Inv(Step(w, e))
  {
    DispatchKeepsInv(w, Step(w, e));
  }

  lemma LoadKeepsInv(w: World, e: Event)
    requires Inv(w) && Enabled(w, e) && (e.StartLoad? || e.LoadFails? || e.WalkEnds?)
    ensures Inv(Step(w, e))
  {
    MoveKeepsInv(w, e.g, if e.StartLoad? then Loading(w.session.requestSeq) else Ending);
  }

  lemma EmittingKeepsInv(w: World, e: Event)
    requires Inv(w) && Enabled(w, e) && (e.EmitRefs? || e.EmitGraph?)
    ensures Inv(Step(w, e))
  {
    if e.EmitRefs? {
      EmitKeepsInv(w, e.g, RefsUpdated(e.g, w.covers[e.g]));
    } else {
      EmitKeepsInv(w, e.g, GraphUpdated(e.g, w.phases[e.g].complete));
    }
  }

  lemma StepKeepsInv(w: World, e: Event)
    requires Inv(w) && Enabled(w, e)
    ensures Inv(Step(w, e))
  {
    if OfTimer(w, e) {
      TimerKeepsInv(w, e);
    } else if e.FilterChange? || e.TimerCallback? {
      NewDispatchKeepsInv(w, e);
    } else if e.StartLoad? || e.LoadFails? || e.WalkEnds? {
      LoadKeepsInv(w, e);
    } else if e.EmitRefs? || e.EmitGraph? {
      EmittingKeepsInv(w, e);
    } else if e.ClaimRefs? {
      ClaimRefsKeepsInv(w, e.g);
    } else if e.Chunk? {
      ChunkKeepsInv(w, e.g, e.complete);
    } else {
      FinishKeepsInv(w, e.g);
    }
  }

  /** What one step may not undo: events stay delivered and the publish gate only rises, taking
      `refs_` and `graph_` with it. */
  ghost predicate Onward(w: World, v: World) {
    && w.delivered <= v.delivered
    && w.session.published <= v.session.published
    && (w.session.refs.Some? ==>
          v.session.refs.Some? && w.session.refs.value.dispatch <= v.session.refs.value.dispatch)
    && (w.session.graph.Some? ==>
          v.session.graph.Some? && w.session.graph.value.dispatch <= v.session.graph.value.dispatch)
  }

  lemma StepOnward(w: World, e: Event)
    requires Inv(w) && Enabled(w, e)
    ensures Onward(w, Step(w, e))
  {
  }

  lemma {:induction false} RunKeepsInv(w: World, es: seq<Event>)
    requires Inv(w) && ValidRun(w, es)
    ensures Inv(Play(w, es)) && Onward(w, Play(w, es))
    decreases |es|
  {
    if es != [] {
      StepKeepsInv(w, es[0]);
      StepOnward(w, es[0]);
      RunKeepsInv(Step(w, es[0]), es[1..]);
    }
  }

  /** In every run `refs_` is exactly what dispatch `publishedGeneration_` loaded, and neither the
      gate nor what is behind it goes back. */
  lemma PublishGateIsMonotone(w: World, before: seq<Event>, after: seq<Event>)
    requires Initial(w) && ValidRun(w, before) && ValidRun(Play(w, before), after)
    ensures var mid, end := Play(w, before), Play(Play(w, before), after);
      && Onward(mid, end)
      && (mid.session.published > 0 ==>
            mid.session.refs.Some? && mid.session.refs.value.dispatch == mid.session.published)
  {
    RunKeepsInv(w, before);
    RunKeepsInv(Play(w, before), after);
  }

  /** Coverage: once REFS_UPDATED has been delivered with coversRequest >= n, every value that
      `currentRefs()` returns from then on was loaded by a read that began after request n. */
  lemma CoveredRequestsAreVisible(w: World, before: seq<Event>, after: seq<Event>, d: Delivered, n: nat)
    requires Initial(w) && ValidRun(w, before) && ValidRun(Play(w, before), after)
    requires d in Play(w, before).delivered && d.RefsUpdated? && n <= d.covers
    ensures var refs := Play(Play(w, before), after).session.refs;
      refs.Some? && n <= refs.value.requestsAtStart
  {
    RunKeepsInv(w, before);
    RunKeepsInv(Play(w, before), after);
    var end := Play(Play(w, before), after);
    assert d in end.delivered;
    assert end.covers[d.dispatch] <= end.covers[end.session.published];
  }

  /** A chunk gets past the gate exactly when its dispatch is the one whose refs are held, and is
      then the graph; a superseded walk changes nothing. */
  lemma ChunkBelongsToHeldRefs(w: World, es: seq<Event>, g: nat, complete: bool)
    requires Initial(w) && ValidRun(w, es) && Enabled(Play(w, es), Chunk(g, complete))
    ensures var v := Play(w, es);
      var next := Step(v, Chunk(g, complete));
      && (g == v.session.published <==>
            && next.session.graph == Some(GraphChunk(g, complete))
            && next.session.refs.Some? && next.session.refs.value.dispatch == g)
      && (g != v.session.published ==> next.session == v.session)
  {
    RunKeepsInv(w, es);
  }

  // ----- no request is lost, and when one is -----

  /** Somebody will still look at the debouncer: a decided `arm`, the timer, its callback, or
      the run whose `finishRefresh` has not happened. */
  predicate Driven(w: World) {
    w.arms > 0 || w.rearms > 0 || w.timer.Some? || w.callback || w.session.debouncer.running
  }

  /** The newest request some dispatch covers. */
  function LastCovered(w: World): nat {
    if w.covers == [] then 0 else w.covers[|w.covers| - 1]
  }

  /** A request no dispatch covers, with nothing left that would ever dispatch it. */
  predicate Stalled(w: World) {
    LastCovered(w) < w.session.requestSeq && !Driven(w)
  }

  /** A request is uncovered exactly while it is recorded as pending, one that arrived mid-run is
      dirty too, and the running generation still has its `finishRefresh` ahead of it. */
  ghost predicate OwedOk(w: World) {
    var d := w.session.debouncer;
    && w.now >= DELAY
    && d.lastEvent <= w.now
    && (LastCovered(w) < w.session.requestSeq <==> d.pending)
    && (d.pending && d.running ==> d.dirty)
    && (d.dirty ==> d.running && d.pending)
    && (d.running ==> |w.phases| > 1 && !w.phases[|w.phases| - 1].Done?)
  }

  /** When no `arm` is outstanding, whatever fires next will find the quiet period over. */
  ghost predicate QuietOk(w: World) {
    var d := w.session.debouncer;
    d.pending && !d.running && w.arms == 0 && w.rearms == 0 ==>
      (w.timer.Some? && d.lastEvent + DELAY <= w.timer.value) || (w.callback && d.lastEvent + DELAY <= w.now)
  }

  lemma StepKeepsOwed(w: World, e: Event)
    requires Inv(w) && OwedOk(w) && Enabled(w, e)
    ensures OwedOk(Step(w, e))
  {
  }

  /** The guard of the losing step: a follow-up's `arm(0)` is carried out last, while the quiet
      period of a younger request is still running. */
  predicate RearmsTooEarly(w: World, e: Event) {
    && e.ArmZero?
    && w.rearms == 1 && w.arms == 0
    && w.session.debouncer.pending && !w.session.debouncer.running
    && w.now < w.session.debouncer.lastEvent + DELAY
  }

  /** Exactly that step breaks the promise that a pending request will be found due. */
  lemma QuietLostIff(w: World, e: Event)
    requires Inv(w) && OwedOk(w) && QuietOk(w) && Enabled(w, e)
    ensures QuietOk(Step(w, e)) <==> !RearmsTooEarly(w, e)
  {
  }

  ghost predicate NeverRearmsTooEarly(w: World, es: seq<Event>)
    requires ValidRun(w, es)
    decreases |es|
  {
    es == [] || (!RearmsTooEarly(w, es[0]) && NeverRearmsTooEarly(Step(w, es[0]), es[1..]))
  }

  lemma {:induction false} RunKeepsQuiet(w: World, es: seq<Event>)
    requires Inv(w) && OwedOk(w) && QuietOk(w)
    requires ValidRun(w, es) && NeverRearmsTooEarly(w, es)
    ensures OwedOk(Play(w, es)) && QuietOk(Play(w, es))
    decreases |es|
  {
    if es != [] {
      StepKeepsInv(w, es[0]);
      StepKeepsOwed(w, es[0]);
      QuietLostIff(w, es[0]);
      RunKeepsQuiet(Step(w, es[0]), es[1..]);
    }
  }

  /** In every run without that step, no request is ever left with nobody to dispatch it. */
  lemma NoRequestLost(w: World, es: seq<Event>)
    requires Initial(w) && ValidRun(w, es) && NeverRearmsTooEarly(w, es)
    ensures !Stalled(Play(w, es))
  {
    RunKeepsQuiet(w, es);
  }

  /** And that step always opens the way to a loss: let the timer run, and the request is stalled. */
  lemma EarlyRearmLosesTheRequest(w: World)
    requires Inv(w) && OwedOk(w) && RearmsTooEarly(w, ArmZero)
    ensures var es := [ArmZero] + (if w.callback then [TimerCallback] else []) + [TimerFires, TimerCallback];
      ValidRun(w, es) && Stalled(Play(w, es))
  {
    var w1 := Step(w, ArmZero);
    var w2 := if w.callback then Step(w1, TimerCallback) else w1;
    var w3 := Step(w2, TimerFires);
    var w4 := Step(w3, TimerCallback);
    PlayOne(w3, TimerCallback, []);
    PlayOne(w2, TimerFires, [TimerCallback]);
    if w.callback {
      PlayOne(w1, TimerCallback, [TimerFires, TimerCallback]);
      PlayOne(w, ArmZero, [TimerCallback, TimerFires, TimerCallback]);
      assert [ArmZero] + [TimerCallback] + [TimerFires, TimerCallback] ==
        [ArmZero] + [TimerCallback, TimerFires, TimerCallback];
    } else {
      PlayOne(w, ArmZero, [TimerFires, TimerCallback]);
      assert [ArmZero] + [] + [TimerFires, TimerCallback] == [ArmZero] + [TimerFires, TimerCallback];
    }
  }

  lemma PlayOne(w: World, e: Event, rest: seq<Event>)
    requires Enabled(w, e) && ValidRun(Step(w, e), rest)
    ensures ValidRun(w, [e] + rest) && Play(w, [e] + rest) == Play(Step(w, e), rest)
  {
    assert ([e] + rest)[1..] == rest;
  }

  lemma {:induction false} PlayAppend(w: World, a: seq<Event>, b: seq<Event>)
    requires ValidRun(w, a) && ValidRun(Play(w, a), b)
    ensures ValidRun(w, a + b) && Play(w, a + b) == Play(Play(w, a), b)
    decreases |a|
  {
    if a == [] {
      assert a + b == b;
    } else {
      PlayAppend(Step(w, a[0]), a[1..], b);
      PlayOne(w, a[0], a[1..] + b);
      assert [a[0]] + (a[1..] + b) == a + b;
    }
  }

  ghost predicate Reaches(w: World, v: World) {
    exists es :: ValidRun(w, es) && Play(w, es) == v
  }

  lemma ReachesNext(w: World, v: World, e: Event) returns (next: World)
    requires Reaches(w, v) && Enabled(v, e)
    ensures next == Step(v, e) && Reaches(w, next)
  {
    var es :| ValidRun(w, es) && Play(w, es) == v;
    PlayOne(v, e, []);
    PlayAppend(w, es, [e] + []);
    next := Step(v, e);
  }

  lemma ReachesSelf(w: World)
    ensures Reaches(w, w)
  {
    assert ValidRun(w, []) && Play(w, []) == w;
  }

  /** A request is dispatched, a second folds into the run, and the run finishes. */
  lemma FoldedFollowUpRun(w: World)
    requires w == World(OPENED, [0], [Done], 1000, 0, 0, None, false, [])
    ensures Reaches(w, World(Session(2, Debouncer(0, true, false, false), 1, 0, None, None),
                             [0, 1], [Done, Done], 1150, 0, 1, None, false, []))
  {
    ReachesSelf(w);
    var v := ReachesNext(w, w, Request);
    v := ReachesNext(w, v, ArmDelay);
    v := ReachesNext(w, v, Tick(1150));
    v := ReachesNext(w, v, TimerFires);
    v := ReachesNext(w, v, TimerCallback);
    FoldAndFinishRun(w, v);
  }

  lemma FoldAndFinishRun(w: World, start: World)
    requires Reaches(w, start)
    requires start == World(Session(1, Debouncer(1000, false, true, false), 1, 0, None, None),
                            [0, 1], [Done, Posted], 1150, 0, 0, None, false, [])
    ensures Reaches(w, World(Session(2, Debouncer(0, true, false, false), 1, 0, None, None),
                             [0, 1], [Done, Done], 1150, 0, 1, None, false, []))
  {
    var v := start;
    v := ReachesNext(w, v, Request);
    v := ReachesNext(w, v, StartLoad(1));
    v := ReachesNext(w, v, LoadFails(1));
    v := ReachesNext(w, v, Finish(1));
  }

  /** Requests can be lost: after a folded follow-up, a third request arrives and its `arm(kDelay)` is
      overtaken by the follow-up's `arm(0)`. The timer callback then finds the quiet period still
      running and nobody arms the timer again. */
  lemma LostRequestRun() returns (w: World, v: World)
    ensures Initial(w) && Reaches(w, v) && Stalled(v)
  {
    w := World(OPENED, [0], [Done], 1000, 0, 0, None, false, []);
    FoldedFollowUpRun(w);
    v := World(Session(2, Debouncer(0, true, false, false), 1, 0, None, None),
               [0, 1], [Done, Done], 1150, 0, 1, None, false, []);
    v := ReachesNext(w, v, Request);
    v := ReachesNext(w, v, ArmDelay);
    v := ReachesNext(w, v, ArmZero);
    v := ReachesNext(w, v, TimerFires);
    v := ReachesNext(w, v, TimerCallback);
  }

  // ----- GRAPH_UPDATED is delivered after the lock is released -----

  ghost predicate NewerClaimIn(es: seq<Event>, g: nat) {
    exists e :: e in es && e.ClaimRefs? && g < e.g
  }

  ghost predicate ClaimedAlready(w: World, g: nat) {
    && 0 < g < |w.phases| && g <= w.session.published
    && !w.phases[g].Posted? && !w.phases[g].Loading?
  }

  lemma StepUntilNewerClaim(w: World, e: Event, g: nat)
    requires Inv(w) && Enabled(w, e) && ClaimedAlready(w, g)
    ensures ClaimedAlready(Step(w, e), g)
    ensures Step(w, e).session.published == g <==> w.session.published == g && !(e.ClaimRefs? && g < e.g)
  {
  }

  lemma {:induction false} RefsStayUntilNewerClaim(w: World, es: seq<Event>, g: nat)
    requires Inv(w) && ValidRun(w, es) && ClaimedAlready(w, g)
    ensures Play(w, es).session.published == g <==> w.session.published == g && !NewerClaimIn(es, g)
    decreases |es|
  {
    if es != [] {
      StepKeepsInv(w, es[0]);
      StepUntilNewerClaim(w, es[0], g);
      RefsStayUntilNewerClaim(Step(w, es[0]), es[1..], g);
      assert forall e :: e in es <==> e == es[0] || e in es[1..];
    }
  }

  /** A published chunk's event, delivered after the lock is dropped, still speaks for the refs held
      at that moment exactly when no newer dispatch claimed its refs in between. */
  lemma CompletionIsCurrentIff(w: World, before: seq<Event>, g: nat, complete: bool, mid: seq<Event>)
    requires Initial(w) && ValidRun(w, before) && Enabled(Play(w, before), Chunk(g, complete))
    requires g == Play(w, before).session.published
    requires ValidRun(Step(Play(w, before), Chunk(g, complete)), mid)
    ensures var v := Play(Step(Play(w, before), Chunk(g, complete)), mid);
      (v.session.refs.Some? && v.session.refs.value.dispatch == g) <==> !NewerClaimIn(mid, g)
  {
    RunKeepsInv(w, before);
    var published := Step(Play(w, before), Chunk(g, complete));
    StepKeepsInv(Play(w, before), Chunk(g, complete));
    RunKeepsInv(published, mid);
    RefsStayUntilNewerClaim(published, mid, g);
  }

  /** It can happen: dispatch 2 publishes its refs between dispatch 1's last chunk and its
      `complete` event, which is then delivered last although only dispatch 2 is current. */
  lemma LateCompletionRun() returns (w: World, v: World)
    ensures Initial(w) && Reaches(w, v)
    ensures v.delivered == [RefsUpdated(1, 0), RefsUpdated(2, 0), GraphUpdated(1, true)]
    ensures v.session.refs == Some(RefSnapshot(2, 0))
  {
    w := World(OPENED, [0], [Done], 1000, 0, 0, None, false, []);
    FirstCompletionRun(w);
    v := World(Session(0, Debouncer(0, false, true, false), 1, 1, Some(RefSnapshot(1, 0)), Some(GraphChunk(1, true))),
               [0, 0], [Done, ChunkPublished(true)], 1000, 0, 0, None, false, [RefsUpdated(1, 0)]);
    v := ReachesNext(w, v, FilterChange);
    v := ReachesNext(w, v, StartLoad(2));
    v := ReachesNext(w, v, ClaimRefs(2));
    v := ReachesNext(w, v, EmitRefs(2));
    v := ReachesNext(w, v, EmitGraph(1));
  }

  lemma FirstCompletionRun(w: World)
    requires w == World(OPENED, [0], [Done], 1000, 0, 0, None, false, [])
    ensures Reaches(w, World(
      Session(0, Debouncer(0, false, true, false), 1, 1, Some(RefSnapshot(1, 0)), Some(GraphChunk(1, true))),
      [0, 0], [Done, ChunkPublished(true)], 1000, 0, 0, None, false, [RefsUpdated(1, 0)]))
  {
    ReachesSelf(w);
    var v := ReachesNext(w, w, FilterChange);
    v := ReachesNext(w, v, StartLoad(1));
    v := ReachesNext(w, v, ClaimRefs(1));
    v := ReachesNext(w, v, EmitRefs(1));
    v := ReachesNext(w, v, Chunk(1, true));
  }
}
