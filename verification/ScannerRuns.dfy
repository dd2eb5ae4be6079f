/** What every interleaving of a scan keeps, and what a finished scan has done. */
module ScannerRuns {
  import opened Basics
  import opened RepoIndex
  import opened Scanner

  // ----- counting workers and the directories they hold -----

  ghost function Busy(ws: seq<Phase>): nat {
    if ws == [] then 0 else (if IsBusy(ws[0]) then 1 else 0) + Busy(ws[1..])
  }

  lemma {:induction false} BusyUpdate(ws: seq<Phase>, i: nat, p: Phase)
    requires i < |ws|
    ensures Busy(ws[i := p]) + (if IsBusy(ws[i]) then 1 else 0) == Busy(ws) + (if IsBusy(p) then 1 else 0)
  {
    if i == 0 {
      assert ws[i := p][1..] == ws[1..];
    } else {
      BusyUpdate(ws[1..], i - 1, p);
      assert ws[i := p][1..] == ws[1..][i - 1 := p];
    }
  }

  lemma {:induction false} BusyAtLeast(ws: seq<Phase>, i: nat)
    requires i < |ws| && IsBusy(ws[i])
    ensures Busy(ws) > 0
  {
    if i > 0 { BusyAtLeast(ws[1..], i - 1); }
  }

  lemma {:induction false} NobodyBusy(ws: seq<Phase>)
    requires forall i :: 0 <= i < |ws| ==> !IsBusy(ws[i])
    ensures Busy(ws) == 0
  {
    if ws != [] { NobodyBusy(ws[1..]); }
  }

  /** How much each directory weighs; the walk's accounts are kept for any weight that a listed
      directory shares out among its children. */
  type Weight = Item -> nat

  ghost function Owed(v: Weight, p: Phase): nat {
    if HasItem(p) then v(p.it) else 0
  }

  ghost function InFlight(v: Weight, ws: seq<Phase>): nat {
    if ws == [] then 0 else Owed(v, ws[0]) + InFlight(v, ws[1..])
  }

  lemma {:induction false} InFlightUpdate(v: Weight, ws: seq<Phase>, i: nat, p: Phase)
    requires i < |ws|
    ensures InFlight(v, ws[i := p]) + Owed(v, ws[i]) == InFlight(v, ws) + Owed(v, p)
  {
    if i == 0 {
      assert ws[i := p][1..] == ws[1..];
    } else {
      InFlightUpdate(v, ws[1..], i - 1, p);
      assert ws[i := p][1..] == ws[1..][i - 1 := p];
    }
  }

  lemma {:induction false} InFlightHolds(v: Weight, ws: seq<Phase>, i: nat)
    requires i < |ws|
    ensures Owed(v, ws[i]) <= InFlight(v, ws)
  {
    if i > 0 { InFlightHolds(v, ws[1..], i - 1); }
  }

  lemma {:induction false} NothingInFlight(v: Weight, ws: seq<Phase>)
    requires forall i :: 0 <= i < |ws| ==> !HasItem(ws[i])
    ensures InFlight(v, ws) == 0
  {
    if ws != [] { NothingInFlight(v, ws[1..]); }
  }

  ghost function Queued(v: Weight, q: seq<Item>): nat {
    if q == [] then 0 else v(q[0]) + Queued(v, q[1..])
  }

  lemma {:induction false} QueuedAppend(v: Weight, a: seq<Item>, b: seq<Item>)
    ensures Queued(v, a + b) == Queued(v, a) + Queued(v, b)
  {
    if a == [] {
      assert a + b == b;
    } else {
      QueuedAppend(v, a[1..], b);
      assert (a + b)[1..] == a[1..] + b;
    }
  }

  ghost predicate Weighs(c: Config, v: Weight, x: Item, it: Item) {
    v(it) == (if it == x then 1 else 0) + if Listed(c, it) then Queued(v, Children(it)) else 0
  }

  /** How often the specification visits `x` below `it` is such a weight. */
  ghost function VisitsTo(c: Config, x: Item): Weight {
    it => Visits(c, it)[x]
  }

  lemma {:induction false} QueuedChildItems(c: Config, entries: seq<Entry>, depth: nat, x: Item)
    ensures Queued(VisitsTo(c, x), ChildItems(entries, depth)) == VisitsIn(c, entries, depth)[x]
  {
    if entries != [] {
      QueuedChildItems(c, entries[1..], depth, x);
      var first := if Descends(entries[0]) then [Item(entries[0].dir, depth)] else [];
      QueuedAppend(VisitsTo(c, x), first, ChildItems(entries[1..], depth));
      if Descends(entries[0]) {
        assert first[1..] == [];
        assert Queued(VisitsTo(c, x), first) == Visits(c, first[0])[x];
      }
    }
  }

  lemma VisitsOf(c: Config, x: Item, it: Item)
    ensures Visits(c, it)[x] == (if it == x then 1 else 0) +
      if Listed(c, it) && it.dir.repo.None? then VisitsIn(c, Yielded(it.dir), it.depth + 1)[x] else 0
  {
  }

  lemma WeighsFrom(c: Config, v: Weight, x: Item, it: Item, below: nat)
    requires below == Queued(v, ChildItems(Yielded(it.dir), it.depth + 1))
    requires v(it) == (if it == x then 1 else 0) + if Listed(c, it) && it.dir.repo.None? then below else 0
    ensures Weighs(c, v, x, it)
  {
  }

  lemma VisitsWeigh(c: Config, x: Item, it: Item)
    ensures Weighs(c, VisitsTo(c, x), x, it)
  {
    VisitsOf(c, x, it);
    QueuedChildItems(c, Yielded(it.dir), it.depth + 1, x);
    WeighsFrom(c, VisitsTo(c, x), x, it, VisitsIn(c, Yielded(it.dir), it.depth + 1)[x]);
  }

  // ----- control: who may still enqueue -----

  ghost predicate AllExited(w: Walk) {
    forall i :: 0 <= i < |w.workers| ==> w.workers[i].Exited?
  }

  /** A worker leaves because it was told to, or because there is nothing left and nobody active. */
  ghost predicate Control(w: Walk) {
    && w.shared.active == Busy(w.workers)
    && |w.workers| > 0
    && (w.sawCancel ==> w.cancelled)
    && (forall i :: 0 <= i < |w.workers| && w.workers[i] == Releasing(true) ==> w.sawCancel || w.shared.failed)
    && (forall i :: 0 <= i < |w.workers| && w.workers[i].Exited? ==>
          w.sawCancel || w.shared.failed || (w.shared.queue == [] && w.shared.active == 0))
    && (!w.main.Walking? ==> AllExited(w))
    && (!w.main.Walking? && w.main != Done(None) ==> !w.shared.failed)
    && (w.main.Saving? || w.main.Marking? || w.main == Done(Some(false)) ==> !w.sawCancel)
  }

  /** A worker that stays busy changes nothing about who may leave. */
  lemma BusyMoveKeepsControl(w: Walk, v: Walk, i: nat)
    requires Control(w) && i < |w.workers| && IsBusy(w.workers[i])
    requires |v.workers| == |w.workers| && v.workers == w.workers[i := v.workers[i]] && IsBusy(v.workers[i])
    requires v.workers[i] == Releasing(true) ==> v.sawCancel || v.shared.failed
    requires v.shared.active == w.shared.active && v.main == w.main
    requires (w.shared.failed ==> v.shared.failed) && (w.sawCancel ==> v.sawCancel) && (v.sawCancel ==> v.cancelled)
    ensures Control(v)
  {
    BusyUpdate(w.workers, i, v.workers[i]);
    BusyAtLeast(w.workers, i);
  }

  lemma IdleKeepsControl(c: Config, w: Walk, i: nat)
    requires Control(w) && Enabled(w, Advance(i)) && !HasItem(w.workers[i])
    ensures Control(WalkStep(c, w, Advance(i)))
  {
    BusyUpdate(w.workers, i, NextPhase(c, w, w.workers[i]));
  }

  lemma StepKeepsControl(c: Config, w: Walk, e: Event)
    requires Control(w) && Enabled(w, e)
    ensures Control(WalkStep(c, w, e))
  {
    match e
    case Advance(i) =>
      if HasItem(w.workers[i]) {
        BusyMoveKeepsControl(w, WalkStep(c, w, e), i);
      } else {
        IdleKeepsControl(c, w, i);
      }
    case Fail(i) => BusyMoveKeepsControl(w, WalkStep(c, w, e), i);
    case Throw(i) => BusyMoveKeepsControl(w, WalkStep(c, w, e), i);
    case _ =>
  }

  // ----- every directory is taken up once -----

  ghost function Accounted(v: Weight, w: Walk, x: Item): nat {
    w.handled[x] + Queued(v, w.shared.queue) + InFlight(v, w.workers)
  }

  /** A worker has failed, or is about to say so. */
  ghost predicate Broke(w: Walk) {
    w.shared.failed || exists i :: 0 <= i < |w.workers| && (w.workers[i].Unwinding? || w.workers[i].Failing?)
  }

  lemma BrokeStays(c: Config, w: Walk, e: Event)
    requires Enabled(w, e) && Broke(w)
    ensures Broke(WalkStep(c, w, e))
  {
    var v := WalkStep(c, w, e);
    if !w.shared.failed {
      var i :| 0 <= i < |w.workers| && (w.workers[i].Unwinding? || w.workers[i].Failing?);
      assert v.shared.failed || v.workers[i].Unwinding? || v.workers[i].Failing?;
    }
  }

  /** No visit to `x` is done, queued or held that the specification does not ask for, and unless
      a worker dropped its directory none is missing either. */
  ghost predicate Items(v: Weight, total: nat, w: Walk, x: Item) {
    && Accounted(v, w, x) <= total
    && (!w.sawCancel && !Broke(w) ==> Accounted(v, w, x) == total)
  }

  ghost predicate PhaseFits(c: Config, p: Phase) {
    && (p.Touched? ==> Pruned(c, p.it))
    && (p.FlushSwap? || p.FlushCommit? ==> Reported(c, p.it))
    && (p.Listing? ==> Listed(c, p.it))
  }

  ghost predicate PhasesFit(c: Config, w: Walk) {
    forall i :: 0 <= i < |w.workers| ==> PhaseFits(c, w.workers[i])
  }

  lemma NextPhaseFits(c: Config, w: Walk, p: Phase)
    requires PhaseFits(c, p)
    ensures PhaseFits(c, NextPhase(c, w, p))
  {
  }

  lemma StepKeepsPhases(c: Config, w: Walk, e: Event)
    requires PhasesFit(c, w) && Enabled(w, e)
    ensures PhasesFit(c, WalkStep(c, w, e))
  {
    if e.Advance? {
      NextPhaseFits(c, w, w.workers[e.i]);
    }
  }

  /** One worker's step moves visits between the queue, the worker and `handled`, and loses some
      only when the worker leaves on a cancelled token. */
  lemma AdvanceMovesVisits(c: Config, v: Weight, w: Walk, p: Phase, x: Item)
    requires PhaseFits(c, p) && !p.Exited? && (Releases(p) ==> w.shared.active > 0)
    requires HasItem(p) ==> Weighs(c, v, x, p.it)
    ensures var before := Queued(v, w.shared.queue) + Owed(v, p);
      var after := NowHandled(c, p)[x] + Queued(v, NextShared(c, w.shared, p).queue) + Owed(v, NextPhase(c, w, p));
      after == if p.Taken? && w.cancelled then before - Owed(v, p) else before
  {
    if p.Listing? {
      QueuedAppend(v, w.shared.queue, Children(p.it));
    }
  }

  lemma StepKeepsItems(c: Config, v: Weight, total: nat, w: Walk, e: Event, x: Item)
    requires PhasesFit(c, w) && Items(v, total, w, x) && Enabled(w, e)
    requires forall it :: Weighs(c, v, x, it)
    ensures Items(v, total, WalkStep(c, w, e), x)
  {
    if Broke(w) {
      BrokeStays(c, w, e);
    }
    match e
    case Advance(i) =>
      var p := w.workers[i];
      assert HasItem(p) ==> Weighs(c, v, x, p.it);
      AdvanceMovesVisits(c, v, w, p, x);
      InFlightUpdate(v, w.workers, i, NextPhase(c, w, p));
    case Fail(i) => InFlightUpdate(v, w.workers, i, Releasing(true));
    case Throw(i) =>
      InFlightUpdate(v, w.workers, i, Unwinding);
      assert WalkStep(c, w, e).workers[i].Unwinding?;
    case _ =>
  }

  // ----- what the scan notes down is what the specification finds -----

  ghost predicate Held(w: Walk, all: multiset<Item>) {
    forall i :: 0 <= i < |w.workers| && HasItem(w.workers[i]) ==> w.workers[i].it in all
  }

  predicate PhaseNoted(l: Ledger, p: Phase) {
    && (p.Touched? ==> p.it.dir.path in l.touched)
    && ((p.FlushSwap? || p.FlushCommit? || p.Listing?) && p.it.dir.repo.Some? ==> p.it.dir.repo.value in l.reported)
  }

  ghost predicate Noted(c: Config, s: Scan, all: multiset<Item>) {
    var l := s.ledger;
    && (forall k :: k in l.reported ==> Found(c, all, k))
    && (forall p :: p in l.touched ==> PrunedPath(c, all, p))
    && (forall i :: 0 <= i < |s.walk.workers| ==> PhaseNoted(l, s.walk.workers[i]))
    && (forall it :: it in s.walk.handled ==>
          (Reported(c, it) ==> it.dir.repo.value in l.reported) && (Pruned(c, it) ==> it.dir.path in l.touched))
  }

  /** A worker adds to what is noted only what its own directory gives it. */
  lemma WorkerNotes(c: Config, w: Walk, l: Ledger, p: Phase, all: multiset<Item>)
    requires PhaseFits(c, p) && PhaseNoted(l, p) && (HasItem(p) ==> p.it in all)
    ensures var m := WorkerLedger(c, l, p);
      && l.reported <= m.reported && l.touched <= m.touched
      && (forall k :: k in m.reported ==> k in l.reported || Found(c, all, k))
      && (forall q :: q in m.touched ==> q in l.touched || PrunedPath(c, all, q))
      && PhaseNoted(m, NextPhase(c, w, p))
  {
  }

  lemma StepKeepsNoted(c: Config, s: Scan, e: Event, all: multiset<Item>)
    requires PhasesFit(c, s.walk) && Held(s.walk, all) && Noted(c, s, all) && Enabled(s.walk, e)
    ensures Noted(c, Step(c, s, e), all)
  {
    match e
    case Advance(i) =>
      WorkerNotes(c, s.walk, s.ledger, s.walk.workers[i], all);
      var m := WorkerLedger(c, s.ledger, s.walk.workers[i]);
      assert Step(c, s, e).ledger == m;
    case _ =>
  }

  // ----- every record queued is committed -----

  predicate RecordsFit(c: Config, l: Ledger, batch: seq<Record>) {
    forall r :: r in batch ==> r.base == c.base && r.lastSeen == c.generation && r.key in l.reported
  }

  ghost predicate BatchHolds(w: Walk, k: RowKey) {
    exists i :: 0 <= i < |w.workers| && w.workers[i].FlushCommit? && k in Keys(w.workers[i].batch)
  }

  /** The calling thread has committed what was pending. */
  predicate PastFlush(m: Main) {
    m.Flushed? || m.Saving? || m.Sweeping? || m.Marking? || (m.Done? && m.cancelled.Some?)
  }

  /** A repository whose record was queued is committed, waiting, or in a batch being committed. */
  ghost predicate Records(c: Config, s: Scan) {
    var w, l := s.walk, s.ledger;
    && RecordsFit(c, l, w.shared.pending)
    && (forall i :: 0 <= i < |w.workers| && w.workers[i].FlushCommit? ==> RecordsFit(c, l, w.workers[i].batch))
    && l.committed <= l.reported
    && (!Broke(w) ==>
          forall k :: k in l.reported ==> k in l.committed || k in Keys(w.shared.pending) || BatchHolds(w, k))
    && (PastFlush(w.main) ==> w.shared.pending == [])
  }

  lemma BatchStays(w: Walk, v: Walk, i: nat, k: RowKey)
    requires i < |w.workers| && |v.workers| == |w.workers| && v.workers == w.workers[i := v.workers[i]]
    requires BatchHolds(w, k)
    ensures BatchHolds(v, k) || (w.workers[i].FlushCommit? && k in Keys(w.workers[i].batch))
  {
    var j :| 0 <= j < |w.workers| && w.workers[j].FlushCommit? && k in Keys(w.workers[j].batch);
    assert j != i ==> v.workers[j] == w.workers[j];
  }

  /** Where a queued record is after one worker's step. */
  lemma AdvanceKeepsTrack(c: Config, s: Scan, i: nat, k: RowKey)
    requires Enabled(s.walk, Advance(i)) && PhaseFits(c, s.walk.workers[i])
    requires k in s.ledger.reported ==>
      k in s.ledger.committed || k in Keys(s.walk.shared.pending) || BatchHolds(s.walk, k)
    ensures var t := Step(c, s, Advance(i));
      k in t.ledger.reported ==>
        k in t.ledger.committed || k in Keys(t.walk.shared.pending) || BatchHolds(t.walk, k)
  {
    var w, t := s.walk, Step(c, s, Advance(i));
    if k in s.ledger.reported && BatchHolds(w, k) {
      BatchStays(w, t.walk, i, k);
    }
    var p := w.workers[i];
    if p.FlushSwap? && k in Keys(w.shared.pending) {
      assert t.walk.workers[i] == FlushCommit(p.it, w.shared.pending);
    } else if p.Checked? {
      assert forall r :: r in w.shared.pending ==> r in t.walk.shared.pending;
      if Reported(c, p.it) {
        assert RecordOf(c, p.it) in t.walk.shared.pending;
      }
    }
  }

  /** Records taken over from `pending` or from the worker's own directory fit. */
  lemma NextRecordsFit(c: Config, w: Walk, l: Ledger, p: Phase)
    requires PhaseFits(c, p) && RecordsFit(c, l, w.shared.pending) && (Releases(p) ==> w.shared.active > 0)
    ensures var m := WorkerLedger(c, l, p);
      && RecordsFit(c, m, NextShared(c, w.shared, p).pending)
      && (NextPhase(c, w, p).FlushCommit? ==> RecordsFit(c, m, NextPhase(c, w, p).batch))
  {
  }

  lemma CommittedStaysReported(c: Config, l: Ledger, p: Phase)
    requires l.committed <= l.reported && (p.FlushCommit? ==> RecordsFit(c, l, p.batch))
    ensures var m := WorkerLedger(c, l, p);
      m.committed <= m.reported && l.reported <= m.reported
  {
  }

  lemma AdvanceKeepsFit(c: Config, s: Scan, i: nat)
    requires Records(c, s) && Control(s.walk) && Enabled(s.walk, Advance(i)) && PhaseFits(c, s.walk.workers[i])
    ensures var t := Step(c, s, Advance(i));
      && RecordsFit(c, t.ledger, t.walk.shared.pending)
      && (forall j :: 0 <= j < |t.walk.workers| && t.walk.workers[j].FlushCommit? ==>
            RecordsFit(c, t.ledger, t.walk.workers[j].batch))
      && t.ledger.committed <= t.ledger.reported
      && s.walk.main.Walking?
  {
    var w, l, p := s.walk, s.ledger, s.walk.workers[i];
    NextRecordsFit(c, w, l, p);
    CommittedStaysReported(c, l, p);
  }

  lemma StepKeepsRecords(c: Config, s: Scan, e: Event)
    requires Records(c, s) && Control(s.walk) && PhasesFit(c, s.walk) && Enabled(s.walk, e)
    ensures Records(c, Step(c, s, e))
  {
    if Broke(s.walk) {
      BrokeStays(c, s.walk, e);
    }
    match e
    case Advance(i) =>
      AdvanceKeepsFit(c, s, i);
      if !Broke(s.walk) {
        forall k {
          AdvanceKeepsTrack(c, s, i, k);
        }
      }
    case Proceed =>
      forall k | k in s.ledger.reported && s.walk.main.Joined?
        ensures k in Step(c, s, e).ledger.committed
      {
        assert !BatchHolds(s.walk, k);
      }
    case Throw(i) =>
      assert Step(c, s, e).walk.workers[i].Unwinding?;
    case _ =>
  }

  // ----- the rows -----

  ghost predicate TouchedRow(l: Ledger, k: RowKey) {
    exists p :: p in l.touched && Under(p, k)
  }

  /** What the scan has made of the rows it started with. */
  ghost function Expected(c: Config, l: Ledger): Rows {
    map k | k in c.start.Keys + l.committed ::
      if k in l.committed then Row(c.base, c.generation, false)
      else if c.start[k].base == c.base && TouchedRow(l, k) then c.start[k].(lastSeen := c.generation)
      else c.start[k]
  }

  ghost predicate RowsOk(c: Config, s: Scan) {
    s.ledger.rows ==
      if s.walk.main == Done(Some(false)) then MarkMissing(Expected(c, s.ledger), c.base, c.generation)
      else Expected(c, s.ledger)
  }

  lemma TouchExpected(c: Config, l: Ledger, path: string)
    requires l.rows == Expected(c, l)
    ensures var m := l.(rows := Touch(l.rows, c.base, path, c.generation), touched := l.touched + {path});
      m.rows == Expected(c, m)
  {
    var m := l.(rows := Touch(l.rows, c.base, path, c.generation), touched := l.touched + {path});
    forall k
      ensures TouchedRow(m, k) <==> TouchedRow(l, k) || Under(path, k)
    {
      assert Under(path, k) ==> path in m.touched;
    }
  }

  lemma {:induction false} UpsertAllRows(c: Config, rows: Rows, batch: seq<Record>)
    requires forall r :: r in batch ==> r.base == c.base && r.lastSeen == c.generation
    ensures UpsertAll(rows, batch).Keys == rows.Keys + Keys(batch)
    ensures forall k :: k in UpsertAll(rows, batch) ==>
      UpsertAll(rows, batch)[k] == if k in Keys(batch) then Row(c.base, c.generation, false) else rows[k]
  {
    if batch != [] {
      var most, last := batch[..|batch| - 1], batch[|batch| - 1];
      UpsertAllRows(c, rows, most);
      assert batch == most + [last];
      assert Keys(batch) == Keys(most) + {last.key};
    }
  }

  lemma CommitExpected(c: Config, l: Ledger, batch: seq<Record>)
    requires l.rows == Expected(c, l) && RecordsFit(c, l, batch)
    ensures CommitTo(l, batch).rows == Expected(c, CommitTo(l, batch))
  {
    UpsertAllRows(c, l.rows, batch);
  }

  lemma ExpectedDependsOn(c: Config, l: Ledger, m: Ledger)
    requires l.committed == m.committed && l.touched == m.touched
    ensures Expected(c, l) == Expected(c, m)
  {
  }

  lemma WorkerKeepsRows(c: Config, l: Ledger, p: Phase)
    requires l.rows == Expected(c, l) && (p.FlushCommit? ==> RecordsFit(c, l, p.batch))
    ensures WorkerLedger(c, l, p).rows == Expected(c, WorkerLedger(c, l, p))
  {
    if p.FlushCommit? {
      CommitExpected(c, l, p.batch);
    } else if p.Checked? && Pruned(c, p.it) {
      TouchExpected(c, l, p.it.dir.path);
    } else {
      ExpectedDependsOn(c, l, WorkerLedger(c, l, p));
    }
  }

  lemma StepKeepsRows(c: Config, s: Scan, e: Event)
    requires Records(c, s) && Control(s.walk) && RowsOk(c, s) && Enabled(s.walk, e)
    ensures RowsOk(c, Step(c, s, e))
  {
    match e
    case Advance(i) =>
      WorkerKeepsRows(c, s.ledger, s.walk.workers[i]);
    case Proceed =>
      if s.walk.main.Joined? {
        CommitExpected(c, s.ledger, s.walk.shared.pending);
      } else {
        ExpectedDependsOn(c, s.ledger, Step(c, s, e).ledger);
      }
    case _ =>
  }

  // ----- the signatures -----

  /** The walk ran to its end: joined, and no worker dropped anything. */
  predicate WalkComplete(w: Walk) {
    !w.main.Walking? && !w.sawCancel && !w.shared.failed
  }

  ghost predicate SignaturesOk(c: Config, s: Scan) {
    && (forall x :: x in s.walk.shared.signatures ==> Signed(c, s.walk.handled, x))
    && (forall k :: k in s.ledger.stored ==>
          || (k in c.stored && s.ledger.stored[k] == c.stored[k])
          || (k.0 == c.base && WalkComplete(s.walk) && Signed(c, s.walk.handled, (k.1, s.ledger.stored[k]))))
  }

  lemma {:induction false} SaveAllSaves(base: int, stored: Signatures, sigs: seq<(string, Signature)>)
    ensures forall k :: k in SaveAll(base, stored, sigs) ==>
      || (k in stored && SaveAll(base, stored, sigs)[k] == stored[k])
      || (k.0 == base && (k.1, SaveAll(base, stored, sigs)[k]) in sigs)
    ensures forall k :: k in stored ==> k in SaveAll(base, stored, sigs)
    ensures forall x :: x in sigs ==> (base, x.0) in SaveAll(base, stored, sigs)
  {
    if sigs != [] {
      var most, last := sigs[..|sigs| - 1], sigs[|sigs| - 1];
      SaveAllSaves(base, stored, most);
      assert sigs == most + [last];
    }
  }

  /** Every directory listed with a signature has it in the list. */
  ghost predicate AllSigned(c: Config, w: Walk) {
    forall it :: it in w.handled && Listed(c, it) && SignatureOf(it).Some? ==>
      SignatureOf(it).value in w.shared.signatures
  }

  ghost predicate SavedUpTo(c: Config, s: Scan, n: nat) {
    n <= |s.walk.shared.signatures| &&
    forall i :: 0 <= i < n ==> (c.base, s.walk.shared.signatures[i].0) in s.ledger.stored
  }

  /** The chunks that have been written are there, and a scan that reaches its sweep uncancelled has
      written them all. */
  ghost predicate SavedOk(c: Config, s: Scan) {
    var w := s.walk;
    && (w.main.Saving? ==> SavedUpTo(c, s, w.main.from))
    && ((w.main.Sweeping? && !w.cancelled) || w.main.Marking? || w.main == Done(Some(false)) ==>
          SavedUpTo(c, s, |w.shared.signatures|))
  }

  lemma StepKeepsAllSigned(c: Config, w: Walk, e: Event)
    requires AllSigned(c, w) && PhasesFit(c, w) && Enabled(w, e)
    ensures AllSigned(c, WalkStep(c, w, e))
  {
    var v := WalkStep(c, w, e);
    assert forall x :: x in w.shared.signatures ==> x in v.shared.signatures;
  }

  lemma SavingKeepsSaved(c: Config, s: Scan)
    requires SavedOk(c, s) && s.walk.main.Saving? && Enabled(s.walk, Proceed)
    ensures SavedOk(c, Step(c, s, Proceed))
  {
    var w, t := s.walk, Step(c, s, Proceed);
    var from, end, sigs := w.main.from, SaveEnd(w), w.shared.signatures;
    SaveAllSaves(c.base, s.ledger.stored, sigs[from..end]);
    forall i | 0 <= i < end
      ensures (c.base, sigs[i].0) in t.ledger.stored
    {
      if from <= i {
        assert sigs[i] in sigs[from..end];
      }
    }
  }

  lemma StepKeepsSaved(c: Config, s: Scan, e: Event)
    requires SavedOk(c, s) && Control(s.walk) && Enabled(s.walk, e)
    ensures SavedOk(c, Step(c, s, e))
  {
    if e.Proceed? && s.walk.main.Saving? {
      SavingKeepsSaved(c, s);
    }
  }

  lemma SignedGrows(c: Config, h: multiset<Item>, g: multiset<Item>, x: (string, Signature))
    requires Signed(c, h, x) && forall it :: it in h ==> it in g
    ensures Signed(c, g, x)
  {
  }

  lemma AdvanceKeepsSigned(c: Config, w: Walk, i: nat, x: (string, Signature))
    requires Enabled(w, Advance(i)) && PhaseFits(c, w.workers[i])
    requires x in WalkStep(c, w, Advance(i)).shared.signatures
    requires x in w.shared.signatures ==> Signed(c, w.handled, x)
    ensures Signed(c, WalkStep(c, w, Advance(i)).handled, x)
  {
    var v, p := WalkStep(c, w, Advance(i)), w.workers[i];
    if x in w.shared.signatures {
      SignedGrows(c, w.handled, v.handled, x);
    } else {
      assert p.it in v.handled && SignatureOf(p.it) == Some(x);
    }
  }

  lemma SavingKeepsSignatures(c: Config, s: Scan)
    requires SignaturesOk(c, s) && Control(s.walk) && Enabled(s.walk, Proceed)
    ensures SignaturesOk(c, Step(c, s, Proceed))
  {
    if s.walk.main.Saving? {
      SaveAllSaves(c.base, s.ledger.stored, s.walk.shared.signatures[s.walk.main.from..SaveEnd(s.walk)]);
    }
  }

  lemma StepKeepsSignatures(c: Config, s: Scan, e: Event)
    requires SignaturesOk(c, s) && Control(s.walk) && PhasesFit(c, s.walk) && Enabled(s.walk, e)
    ensures SignaturesOk(c, Step(c, s, e))
  {
    match e
    case Advance(i) =>
      assert s.walk.main.Walking?;
      forall x | x in WalkStep(c, s.walk, e).shared.signatures
        ensures Signed(c, WalkStep(c, s.walk, e).handled, x)
      {
        AdvanceKeepsSigned(c, s.walk, i, x);
      }
    case Proceed => SavingKeepsSignatures(c, s);
    case _ =>
  }

  // ----- whole runs -----

  ghost predicate ItemsAt(c: Config, w: Walk, x: Item) {
    Items(VisitsTo(c, x), AllVisits(c)[x], w, x)
  }

  ghost predicate Inv(c: Config, s: Scan) {
    && Control(s.walk) && PhasesFit(c, s.walk)
    && (forall x :: ItemsAt(c, s.walk, x))
    && Noted(c, s, AllVisits(c)) && Records(c, s) && RowsOk(c, s) && SignaturesOk(c, s)
    && AllSigned(c, s.walk) && SavedOk(c, s)
  }

  lemma HeldDirectoriesAreVisits(c: Config, w: Walk)
    requires forall x :: ItemsAt(c, w, x)
    ensures Held(w, AllVisits(c))
  {
    forall i | 0 <= i < |w.workers| && HasItem(w.workers[i])
      ensures w.workers[i].it in AllVisits(c)
    {
      var x := w.workers[i].it;
      assert ItemsAt(c, w, x);
      InFlightHolds(VisitsTo(c, x), w.workers, i);
      assert Visits(c, x)[x] > 0;
    }
  }

  lemma StepKeepsInv(c: Config, s: Scan, e: Event)
    requires Inv(c, s) && Enabled(s.walk, e)
    ensures Inv(c, Step(c, s, e))
  {
    StepKeepsControl(c, s.walk, e);
    StepKeepsPhases(c, s.walk, e);
    forall x
      ensures ItemsAt(c, WalkStep(c, s.walk, e), x)
    {
      assert ItemsAt(c, s.walk, x);
      forall it { VisitsWeigh(c, x, it); }
      StepKeepsItems(c, VisitsTo(c, x), AllVisits(c)[x], s.walk, e, x);
    }
    HeldDirectoriesAreVisits(c, s.walk);
    StepKeepsNoted(c, s, e, AllVisits(c));
    StepKeepsRecords(c, s, e);
    StepKeepsRows(c, s, e);
    StepKeepsSignatures(c, s, e);
    StepKeepsAllSigned(c, s.walk, e);
    StepKeepsSaved(c, s, e);
  }

  lemma InitialInv(c: Config, s: Scan)
    requires Initial(c, s)
    ensures Inv(c, s)
  {
    NobodyBusy(s.walk.workers);
    forall x
      ensures ItemsAt(c, s.walk, x)
    {
      NothingInFlight(VisitsTo(c, x), s.walk.workers);
      var q := s.walk.shared.queue;
      assert q[1..] == [] && Queued(VisitsTo(c, x), q) == Visits(c, q[0])[x];
    }
    assert Expected(c, s.ledger) == c.start;
  }

  lemma {:induction false} RunKeepsInv(c: Config, s: Scan, es: seq<Event>)
    requires Inv(c, s) && ValidRun(c, s, es)
    ensures Inv(c, Play(c, s, es))
    decreases |es|
  {
    if es != [] {
      StepKeepsInv(c, s, es[0]);
      RunKeepsInv(c, Step(c, s, es[0]), es[1..]);
    }
  }

  /** A worker that leaves a scan nobody cancelled or failed leaves nothing behind: the queue is
      empty and no other worker holds a directory it could still list. */
  lemma NobodyLeavesEarly(c: Config, s: Scan, es: seq<Event>, i: nat)
    requires Initial(c, s) && ValidRun(c, s, es)
    requires var w := Play(c, s, es).walk; i < |w.workers| && w.workers[i].Exited? && !w.sawCancel && !w.shared.failed
    ensures var w := Play(c, s, es).walk;
      w.shared.queue == [] && forall j :: 0 <= j < |w.workers| ==> !IsBusy(w.workers[j])
  {
    InitialInv(c, s);
    RunKeepsInv(c, s, es);
    var w := Play(c, s, es).walk;
    forall j | 0 <= j < |w.workers|
      ensures !IsBusy(w.workers[j])
    {
      if IsBusy(w.workers[j]) { BusyAtLeast(w.workers, j); }
    }
  }

  lemma CompleteWalkHandledAll(c: Config, s: Scan)
    requires Inv(c, s) && WalkComplete(s.walk)
    ensures s.walk.handled == AllVisits(c)
  {
    var w := s.walk;
    assert w.workers[0].Exited?;
    forall x
      ensures w.handled[x] == AllVisits(c)[x]
    {
      assert ItemsAt(c, w, x);
      NothingInFlight(VisitsTo(c, x), w.workers);
    }
  }

  /** Every state of a run keeps the invariant. */
  lemma Reached(c: Config, s: Scan, es: seq<Event>) returns (t: Scan)
    requires Initial(c, s) && ValidRun(c, s, es)
    ensures t == Play(c, s, es) && Inv(c, t)
  {
    InitialInv(c, s);
    RunKeepsInv(c, s, es);
    t := Play(c, s, es);
  }

  /** What a scan that reports cancelled = false has done. */
  ghost predicate FoundAll(c: Config, t: Scan) {
    && t.walk.handled == AllVisits(c)
    && (forall k :: k in t.ledger.committed <==> Found(c, AllVisits(c), k))
    && (forall p :: p in t.ledger.touched <==> PrunedPath(c, AllVisits(c), p))
  }

  lemma CompletedFoundAll(c: Config, t: Scan)
    requires Inv(c, t) && t.walk.main == Done(Some(false))
    ensures FoundAll(c, t)
  {
    CompleteWalkHandledAll(c, t);
    forall k | k in t.ledger.reported
      ensures k in t.ledger.committed
    {
      assert !BatchHolds(t.walk, k);
    }
  }

  /** However the workers interleave, a scan that reports cancelled = false has handled every
      directory the specification visits exactly as often as it occurs, has committed exactly
      the repositories found there and has touched exactly the pruned paths. */
  lemma CompletedScanFoundAll(c: Config, s: Scan, es: seq<Event>)
    requires Initial(c, s) && ValidRun(c, s, es) && Play(c, s, es).walk.main == Done(Some(false))
    ensures var t := Play(c, s, es);
      && t.walk.handled == AllVisits(c)
      && (forall k :: k in t.ledger.committed <==> Found(c, AllVisits(c), k))
      && (forall p :: p in t.ledger.touched <==> PrunedPath(c, AllVisits(c), p))
  {
    var t := Reached(c, s, es);
    CompletedFoundAll(c, t);
  }

  predicate Live(rows: Rows, base: int, k: RowKey) {
    k in rows && rows[k].base == base && !rows[k].missing
  }

  /** Before the scan no row of the folder claims to have been seen by this generation. */
  ghost predicate OlderGenerations(c: Config) {
    forall k :: k in c.start && c.start[k].base == c.base ==> c.start[k].lastSeen < c.generation
  }

  lemma LiveRowsWhenDone(c: Config, t: Scan, k: RowKey)
    requires OlderGenerations(c) && RowsOk(c, t) && FoundAll(c, t) && t.walk.main == Done(Some(false))
    ensures Live(t.ledger.rows, c.base, k) <==>
      || Found(c, AllVisits(c), k)
      || (Live(c.start, c.base, k) && exists p :: PrunedPath(c, AllVisits(c), p) && Under(p, k))
  {
    var l := t.ledger;
    assert TouchedRow(l, k) <==> exists p :: PrunedPath(c, AllVisits(c), p) && Under(p, k);
    assert l.rows == MarkMissing(Expected(c, l), c.base, c.generation);
  }

  /** After a completed scan the folder's live rows are the repositories found in this run, and the
      rows that were live before and lie under a pruned directory. */
  lemma LiveRowsAfterScan(c: Config, s: Scan, es: seq<Event>, k: RowKey)
    requires OlderGenerations(c)
    requires Initial(c, s) && ValidRun(c, s, es) && Play(c, s, es).walk.main == Done(Some(false))
    ensures Live(Play(c, s, es).ledger.rows, c.base, k) <==>
      || Found(c, AllVisits(c), k)
      || (Live(c.start, c.base, k) && exists p :: PrunedPath(c, AllVisits(c), p) && Under(p, k))
  {
    var t := Reached(c, s, es);
    CompletedFoundAll(c, t);
    LiveRowsWhenDone(c, t, k);
  }

  /** After a completed Full scan they are exactly the repositories found in this run. */
  lemma FullScanIsExact(c: Config, s: Scan, es: seq<Event>, k: RowKey)
    requires OlderGenerations(c) && !c.incremental
    requires Initial(c, s) && ValidRun(c, s, es) && Play(c, s, es).walk.main == Done(Some(false))
    ensures Live(Play(c, s, es).ledger.rows, c.base, k) <==> Found(c, AllVisits(c), k)
  {
    LiveRowsAfterScan(c, s, es, k);
  }

  /** Until the sweep of a completed scan no row goes missing, whatever is cancelled or fails when;
      and a scan that reports cancelled = true has still committed every repository it found. */
  lemma NothingGoesMissingEarly(c: Config, s: Scan, es: seq<Event>, k: RowKey)
    requires Initial(c, s) && ValidRun(c, s, es) && Play(c, s, es).walk.main != Done(Some(false))
    ensures var t := Play(c, s, es);
      && (k in c.start && !c.start[k].missing ==> k in t.ledger.rows && !t.ledger.rows[k].missing)
      && (t.walk.main == Done(Some(true)) && k in t.ledger.reported ==> Live(t.ledger.rows, c.base, k))
  {
    InitialInv(c, s);
    RunKeepsInv(c, s, es);
    var t := Play(c, s, es);
    assert t.ledger.rows == Expected(c, t.ledger);
    if t.walk.main == Done(Some(true)) && k in t.ledger.reported {
      assert !BatchHolds(t.walk, k);
    }
  }

  /** A stored signature that this scan wrote is that of a directory it listed, in a walk that handled
      everything the specification visits. */
  lemma StoredSignaturesComeFromListings(c: Config, s: Scan, es: seq<Event>, k: (int, string))
    requires Initial(c, s) && ValidRun(c, s, es)
    ensures var t := Play(c, s, es);
      k in t.ledger.stored ==>
        || (k in c.stored && t.ledger.stored[k] == c.stored[k])
        || (k.0 == c.base && t.walk.handled == AllVisits(c) && Signed(c, AllVisits(c), (k.1, t.ledger.stored[k])))
  {
    InitialInv(c, s);
    RunKeepsInv(c, s, es);
    var t := Play(c, s, es);
    if WalkComplete(t.walk) { CompleteWalkHandledAll(c, t); }
  }

  /** Every listed directory with this key and a signature was listed to its end. */
  ghost predicate OnlyWholeListings(c: Config, all: multiset<Item>, key: string) {
    forall it :: it in all && Listed(c, it) && SignatureOf(it).Some? && it.dir.key == key ==> it.dir.listing.Ends?
  }

  ghost predicate NoneBreaks(c: Config, all: multiset<Item>) {
    forall it :: it in all && Listed(c, it) && it.dir.mtime.Some? ==> !BreaksPartWay(it.dir)
  }

  /** After a completed scan every stored signature describes directories that were listed to their
      end if and only if no listed directory's enumeration broke part-way. */
  lemma SignaturesAreWholeIff(c: Config, s: Scan, es: seq<Event>)
    requires Initial(c, s) && ValidRun(c, s, es) && Play(c, s, es).walk.main == Done(Some(false))
    ensures var stored := Play(c, s, es).ledger.stored;
      (forall key :: (c.base, key) in stored ==> OnlyWholeListings(c, AllVisits(c), key)) <==>
      NoneBreaks(c, AllVisits(c))
  {
    forall it | it in AllVisits(c) && Listed(c, it) && SignatureOf(it).Some?
      ensures (c.base, it.dir.key) in Play(c, s, es).ledger.stored
    {
      ListedIsStored(c, s, es, it);
    }
  }

  lemma ListedIsStored(c: Config, s: Scan, es: seq<Event>, it: Item)
    requires Initial(c, s) && ValidRun(c, s, es) && Play(c, s, es).walk.main == Done(Some(false))
    requires it in AllVisits(c) && Listed(c, it) && SignatureOf(it).Some?
    ensures (c.base, it.dir.key) in Play(c, s, es).ledger.stored
  {
    var t := Reached(c, s, es);
    CompleteWalkHandledAll(c, t);
    HandledIsStored(c, t, it);
  }

  lemma HandledIsStored(c: Config, t: Scan, it: Item)
    requires AllSigned(c, t.walk) && SavedUpTo(c, t, |t.walk.shared.signatures|)
    requires it in t.walk.handled && Listed(c, it) && SignatureOf(it).Some?
    ensures (c.base, it.dir.key) in t.ledger.stored
  {
    var sigs := t.walk.shared.signatures;
    var i :| 0 <= i < |sigs| && sigs[i] == SignatureOf(it).value;
  }

  // ----- generations -----

  /** No row is ahead of the generation of its folder. */
  ghost predicate IndexOrdered(rows: Rows, generations: map<int, int>) {
    forall k :: k in rows ==> rows[k].base in generations && rows[k].lastSeen <= generations[rows[k].base]
  }

  lemma RowsStayOrdered(c: Config, t: Scan, generations: map<int, int>)
    requires IndexOrdered(c.start, generations) && c.base in generations && c.generation == generations[c.base] + 1
    requires RowsOk(c, t)
    ensures IndexOrdered(t.ledger.rows, Begun(generations, c.base))
  {
    forall k | k in t.ledger.rows
      ensures k in Expected(c, t.ledger) && t.ledger.rows[k].base == Expected(c, t.ledger)[k].base
      ensures t.ledger.rows[k].lastSeen == Expected(c, t.ledger)[k].lastSeen
    {
    }
  }

  /** The premise of the sweep holds for a scan of an ordered index, and however the scan ends it
      leaves the index ordered. */
  lemma GenerationsStayOrdered(c: Config, s: Scan, es: seq<Event>, generations: map<int, int>)
    requires IndexOrdered(c.start, generations) && c.base in generations && c.generation == generations[c.base] + 1
    requires Initial(c, s) && ValidRun(c, s, es)
    ensures OlderGenerations(c)
    ensures IndexOrdered(Play(c, s, es).ledger.rows, Begun(generations, c.base))
  {
    var t := Reached(c, s, es);
    RowsStayOrdered(c, t, generations);
  }
}
