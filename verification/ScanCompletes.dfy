/**
  Every scan ends: in every run the workers together take a bounded number of steps besides waiting,
  somebody can always take one, and from every state of every run the scan can be brought to its end.
*/
module ScanCompletes {
  import opened Basics
  import opened RepoIndex
  import opened Scanner
  import opened ScannerRuns

  // ----- joining runs -----

  lemma PlayOne(c: Config, s: Scan, e: Event, rest: seq<Event>)
    requires Enabled(s.walk, e) && ValidRun(c, Step(c, s, e), rest)
    ensures ValidRun(c, s, [e] + rest) && Play(c, s, [e] + rest) == Play(c, Step(c, s, e), rest)
  {
    assert ([e] + rest)[1..] == rest;
  }

  lemma {:induction false} PlayAppend(c: Config, s: Scan, a: seq<Event>, b: seq<Event>)
    requires ValidRun(c, s, a) && ValidRun(c, Play(c, s, a), b)
    ensures ValidRun(c, s, a + b) && Play(c, s, a + b) == Play(c, Play(c, s, a), b)
    decreases |a|
  {
    if a == [] {
      assert a + b == b;
    } else {
      PlayAppend(c, Step(c, s, a[0]), a[1..], b);
      PlayOne(c, s, a[0], a[1..] + b);
      assert [a[0]] + (a[1..] + b) == a + b;
    }
  }

  // ----- how much there is to do -----

  /** How many directories there are to handle below and including one. */
  ghost function Size(c: Config): Weight {
    it => |Visits(c, it)|
  }

  lemma {:induction false} QueuedSizes(c: Config, entries: seq<Entry>, depth: nat)
    ensures Queued(Size(c), ChildItems(entries, depth)) == |VisitsIn(c, entries, depth)|
  {
    if entries != [] {
      QueuedSizes(c, entries[1..], depth);
      var first := if Descends(entries[0]) then [Item(entries[0].dir, depth)] else [];
      QueuedAppend(Size(c), first, ChildItems(entries[1..], depth));
      if Descends(entries[0]) {
        assert first[1..] == [];
        assert Queued(Size(c), first) == |Visits(c, first[0])|;
      }
    }
  }

  ghost predicate Counts(c: Config, v: Weight, it: Item) {
    v(it) == 1 + if Listed(c, it) then Queued(v, Children(it)) else 0
  }

  lemma SizeOf(c: Config, it: Item)
    ensures |Visits(c, it)| == 1 +
      if Listed(c, it) && it.dir.repo.None? then |VisitsIn(c, Yielded(it.dir), it.depth + 1)| else 0
  {
  }

  lemma CountsFrom(c: Config, v: Weight, it: Item, below: nat)
    requires below == Queued(v, ChildItems(Yielded(it.dir), it.depth + 1))
    requires v(it) == 1 + if Listed(c, it) && it.dir.repo.None? then below else 0
    ensures Counts(c, v, it)
  {
  }

  lemma SizesCount(c: Config, it: Item)
    ensures Counts(c, Size(c), it)
  {
    SizeOf(c, it);
    QueuedSizes(c, Yielded(it.dir), it.depth + 1);
    CountsFrom(c, Size(c), it, |VisitsIn(c, Yielded(it.dir), it.depth + 1)|);
  }

  /** How far a worker is from its next rest. */
  function Rank(p: Phase): nat {
    match p
    case Releasing(_) => 10
    case Idle => 9
    case Taken(_) => 8
    case Checked(_) => 7
    case FlushSwap(_) => 6
    case FlushCommit(_, _) => 5
    case Listing(_) => 4
    case Touched(_) => 4
    case Unwinding => 2
    case Failing => 1
    case Exited => 0
  }

  ghost function Ranks(ws: seq<Phase>): nat {
    if ws == [] then 0 else Rank(ws[0]) + Ranks(ws[1..])
  }

  lemma {:induction false} RanksUpdate(ws: seq<Phase>, i: nat, p: Phase)
    requires i < |ws|
    ensures Ranks(ws[i := p]) + Rank(ws[i]) == Ranks(ws) + Rank(p)
  {
    if i == 0 {
      assert ws[i := p][1..] == ws[1..];
    } else {
      RanksUpdate(ws[1..], i - 1, p);
      assert ws[i := p][1..] == ws[1..][i - 1 := p];
    }
  }

  lemma {:induction false} RanksOfIdle(ws: seq<Phase>)
    requires forall i :: 0 <= i < |ws| ==> ws[i].Idle?
    ensures Ranks(ws) == 9 * |ws|
  {
    if ws != [] {
      RanksOfIdle(ws[1..]);
    }
  }

  /** Ten steps for every directory queued or held, and what the workers still have before them. */
  ghost function Effort(v: Weight, w: Walk): nat {
    10 * (Queued(v, w.shared.queue) + InFlight(v, w.workers)) + Ranks(w.workers)
  }

  // ----- every step but waiting takes some of it -----

  /** The worker finds the queue empty while others are active, and will look again. */
  predicate Waits(w: Walk, e: Event) {
    e.Advance? && e.i < |w.workers| && w.workers[e.i].Idle? && PollOf(w.shared).Wait?
  }

  predicate OfWorker(e: Event) {
    e.Advance? || e.Fail? || e.Throw?
  }

  /** One worker's step, seen from the queue and that worker alone. */
  lemma StepTakesEffort(c: Config, v: Weight, w: Walk, p: Phase)
    requires PhaseFits(c, p) && !p.Exited? && (Releases(p) ==> w.shared.active > 0)
    requires HasItem(p) ==> Counts(c, v, p.it)
    requires !(p.Idle? && PollOf(w.shared).Wait?)
    ensures var queue, next := NextShared(c, w.shared, p).queue, NextPhase(c, w, p);
      10 * (Queued(v, queue) + Owed(v, next)) + Rank(next) < 10 * (Queued(v, w.shared.queue) + Owed(v, p)) + Rank(p)
  {
    if p.Listing? {
      QueuedAppend(v, w.shared.queue, Children(p.it));
    }
  }

  lemma WorkerTakesEffort(c: Config, v: Weight, w: Walk, e: Event)
    requires PhasesFit(c, w) && Enabled(w, e) && OfWorker(e) && !Waits(w, e)
    requires HasItem(w.workers[e.i]) ==> Counts(c, v, w.workers[e.i].it)
    ensures Effort(v, WalkStep(c, w, e)) < Effort(v, w)
  {
    var p := w.workers[e.i];
    var next := WalkStep(c, w, e).workers[e.i];
    InFlightUpdate(v, w.workers, e.i, next);
    RanksUpdate(w.workers, e.i, next);
    if e.Advance? {
      StepTakesEffort(c, v, w, p);
    }
  }

  /** A waiting worker, the token and the calling thread leave the rest as it is. */
  lemma OthersTakeNone(c: Config, v: Weight, w: Walk, e: Event)
    requires Enabled(w, e) && (!OfWorker(e) || Waits(w, e))
    ensures Effort(v, WalkStep(c, w, e)) == Effort(v, w)
  {
    if Waits(w, e) {
      assert w.workers[e.i := Idle] == w.workers;
    }
  }

  ghost predicate Sound(c: Config, w: Walk) {
    Control(w) && PhasesFit(c, w)
  }

  lemma StepKeepsSound(c: Config, w: Walk, e: Event)
    requires Sound(c, w) && Enabled(w, e)
    ensures Sound(c, WalkStep(c, w, e))
  {
    StepKeepsControl(c, w, e);
    StepKeepsPhases(c, w, e);
  }

  ghost function EffortLeft(c: Config, w: Walk): nat {
    Effort(Size(c), w)
  }

  lemma StepEffort(c: Config, w: Walk, e: Event)
    requires Sound(c, w) && Enabled(w, e)
    ensures EffortLeft(c, WalkStep(c, w, e)) + (if OfWorker(e) && !Waits(w, e) then 1 else 0) <= EffortLeft(c, w)
  {
    if OfWorker(e) && !Waits(w, e) {
      if HasItem(w.workers[e.i]) {
        SizesCount(c, w.workers[e.i].it);
      }
      WorkerTakesEffort(c, Size(c), w, e);
    } else {
      OthersTakeNone(c, Size(c), w, e);
    }
  }

  /** How many steps the workers take in a run, waiting not counted. */
  ghost function Moves(c: Config, s: Scan, es: seq<Event>): nat
    requires ValidRun(c, s, es)
    decreases |es|
  {
    if es == [] then 0
    else (if OfWorker(es[0]) && !Waits(s.walk, es[0]) then 1 else 0) + Moves(c, Step(c, s, es[0]), es[1..])
  }

  lemma {:induction false} MovesTakeEffort(c: Config, s: Scan, es: seq<Event>)
    requires Sound(c, s.walk) && ValidRun(c, s, es)
    ensures Moves(c, s, es) + EffortLeft(c, Play(c, s, es).walk) <= EffortLeft(c, s.walk)
    ensures Sound(c, Play(c, s, es).walk)
    decreases |es|
  {
    if es != [] {
      StepEffort(c, s.walk, es[0]);
      StepKeepsSound(c, s.walk, es[0]);
      MovesTakeEffort(c, Step(c, s, es[0]), es[1..]);
    }
  }

  lemma InitialEffort(c: Config, s: Scan)
    requires Initial(c, s)
    ensures Sound(c, s.walk) && EffortLeft(c, s.walk) == 10 * |AllVisits(c)| + 9 * |s.walk.workers|
  {
    NobodyBusy(s.walk.workers);
    NothingInFlight(Size(c), s.walk.workers);
    RanksOfIdle(s.walk.workers);
    var q := s.walk.shared.queue;
    assert q[1..] == [] && Queued(Size(c), q) == |Visits(c, q[0])|;
  }

  /** However many workers there are and however they interleave, in every run they take at most ten
      steps per directory to visit and nine per worker, besides waiting. */
  lemma MovesAreBounded(c: Config, s: Scan, es: seq<Event>)
    requires Initial(c, s) && ValidRun(c, s, es)
    ensures Moves(c, s, es) <= 10 * |AllVisits(c)| + 9 * |s.walk.workers|
  {
    InitialEffort(c, s);
    MovesTakeEffort(c, s, es);
  }

  // ----- and somebody can always take one -----

  lemma {:induction false} SomeoneBusy(ws: seq<Phase>) returns (i: nat)
    requires Busy(ws) > 0
    ensures i < |ws| && IsBusy(ws[i])
  {
    if IsBusy(ws[0]) {
      i := 0;
    } else {
      var j := SomeoneBusy(ws[1..]);
      i := j + 1;
    }
  }

  /** Until all workers have left, one of them can do something other than wait. */
  lemma SomeoneCanMove(c: Config, w: Walk) returns (i: nat)
    requires Sound(c, w) && !AllExited(w)
    ensures Enabled(w, Advance(i)) && !Waits(w, Advance(i))
  {
    if Busy(w.workers) > 0 {
      i := SomeoneBusy(w.workers);
    } else {
      i :| 0 <= i < |w.workers| && !w.workers[i].Exited?;
      if IsBusy(w.workers[i]) {
        BusyAtLeast(w.workers, i);
      }
    }
  }

  /** Nobody cancelled, and no failure is recorded or on its way. */
  ghost predicate Untroubled(w: Walk) {
    !w.cancelled && !Broke(w)
  }

  lemma AdvanceIsUntroubled(c: Config, w: Walk, i: nat)
    requires Sound(c, w) && Untroubled(w) && Enabled(w, Advance(i))
    ensures Untroubled(WalkStep(c, w, Advance(i)))
  {
  }

  lemma {:induction false} WorkersFinish(c: Config, s: Scan) returns (es: seq<Event>)
    requires Sound(c, s.walk)
    ensures ValidRun(c, s, es) && Sound(c, Play(c, s, es).walk) && AllExited(Play(c, s, es).walk)
    ensures Play(c, s, es).walk.main == s.walk.main
    ensures Untroubled(s.walk) ==> Untroubled(Play(c, s, es).walk)
    decreases EffortLeft(c, s.walk)
  {
    es := [];
    if !AllExited(s.walk) {
      var i := SomeoneCanMove(c, s.walk);
      StepEffort(c, s.walk, Advance(i));
      StepKeepsSound(c, s.walk, Advance(i));
      if Untroubled(s.walk) {
        AdvanceIsUntroubled(c, s.walk, i);
      }
      var rest := WorkersFinish(c, Step(c, s, Advance(i)));
      PlayOne(c, s, Advance(i), rest);
      es := [Advance(i)] + rest;
    }
  }

  // ----- the calling thread -----

  function Stage(m: Main): nat {
    match m
    case Walking => 6
    case Joined => 5
    case Flushed => 4
    case Saving(_) => 3
    case Sweeping => 2
    case Marking => 1
    case Done(_) => 0
  }

  ghost predicate Joinable(w: Walk) {
    AllExited(w) && (w.main.Saving? ==> w.main.from <= |w.shared.signatures|)
  }

  lemma {:induction false} CallerFinishes(c: Config, s: Scan) returns (es: seq<Event>)
    requires Joinable(s.walk)
    ensures ValidRun(c, s, es) && Play(c, s, es).walk.main.Done?
    ensures (s.walk.main.Done? ==> s.walk.main == Done(Some(false))) && !s.walk.cancelled && !s.walk.shared.failed ==>
      Play(c, s, es).walk.main == Done(Some(false))
    decreases Stage(s.walk.main), if s.walk.main.Saving? then |s.walk.shared.signatures| - s.walk.main.from else 0
  {
    es := [];
    if !s.walk.main.Done? {
      var rest := CallerFinishes(c, Step(c, s, Proceed));
      PlayOne(c, s, Proceed, rest);
      es := [Proceed] + rest;
    }
  }

  /** From every state of every run the scan can be brought to its end; and if nobody has cancelled,
      nothing has failed and it has not ended, to one with cancelled = false. */
  lemma EveryRunCanEnd(c: Config, s: Scan, es: seq<Event>) returns (more: seq<Event>)
    requires Initial(c, s) && ValidRun(c, s, es)
    ensures var t := Play(c, s, es);
      && ValidRun(c, s, es + more) && Play(c, s, es + more).walk.main.Done?
      && (Untroubled(t.walk) && !t.walk.main.Done? ==> Play(c, s, es + more).walk.main == Done(Some(false)))
  {
    var t := Reached(c, s, es);
    var first := WorkersFinish(c, t);
    if !t.walk.main.Walking? {
      first := [];
    }
    var mid := Play(c, t, first);
    var last := CallerFinishes(c, mid);
    PlayAppend(c, t, first, last);
    more := first + last;
    PlayAppend(c, s, es, more);
  }

  /** Whatever the tree, the rows and the signatures, a scan of them can complete. */
  lemma EveryScanCanComplete(c: Config) returns (s: Scan, es: seq<Event>)
    ensures Initial(c, s) && ValidRun(c, s, es) && Play(c, s, es).walk.main == Done(Some(false))
  {
    s := Scan(Walk(Shared([Item(c.root, 0)], [], [], 0, false), [Idle], false, false, Walking, multiset{}),
              Ledger(c.start, c.stored, {}, {}, {}));
    es := EveryRunCanEnd(c, s, []);
    assert [] + es == es;
  }
}
