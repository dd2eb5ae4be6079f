/**
  The discovery scan (src/core/discovery/Scanner.cpp): workers share one queue, stop when it is
  empty and nobody is active, commit found repositories in batches, and a scan that completed
  saves directory signatures and marks the rows it did not see as missing.

  `Shared` is what the mutex guards; the class `SharedState` changes it in place. `Scan` adds the
  workers' positions, the database rows, the cancellation token and the thread that called
  `scan()`. `Step` is one critical section of one thread, so a run is any interleaving.
*/
module Scanner {
  import opened Basics
  import opened RepoIndex

  // ----- the tree and what the walk does with one directory -----

  /** How a listing goes: it cannot be opened, it ends, or an error stops it after its entries. */
  datatype Listing = CannotOpen | Ends | Breaks

  /** A directory as the walk finds it. `repo` is the classifier's answer, `skip` the skip rules'
      answer for its path, and `entries` what an opened listing yields before it ends or breaks. */
  datatype Dir = Dir(
    path: string,
    key: string,
    mtime: Option<int>,
    repo: Option<RowKey>,
    skip: bool,
    listing: Listing,
    entries: seq<Entry>)

  datatype Entry = File | SubDir(placeholder: bool, link: bool, dir: Dir)

  datatype Item = Item(dir: Dir, depth: nat)

  /** What stays fixed during one scan. `start` and `stored` are the rows and this folder's
      signatures once `beginScan` (and, for a Full scan, `clearDirSignatures`) have run. */
  datatype Config = Config(
    base: int,
    generation: int,
    maxDepth: int,
    incremental: bool,
    root: Dir,
    start: Rows,
    stored: Signatures)

  /** The configuration that `scan()` sets up on this database: the next generation of a known
      folder and, for a Full scan, no signatures left. */
  ghost predicate SetUp(c: Config, db: Db) {
    && c.base in db.generations && c.generation == Begun(db.generations, c.base)[c.base]
    && c.start == db.rows
    && c.stored == if c.incremental then db.signatures else Cleared(db.signatures, c.base)
  }

  const BATCH_SIZE := 20
  const SIGNATURE_CHUNK := 500

  predicate Skipped(c: Config, it: Item) {
    it.depth > c.maxDepth || (it.depth > 0 && it.dir.skip)
  }

  predicate Pruned(c: Config, it: Item) {
    && !Skipped(c, it)
    && c.incremental && it.dir.mtime.Some?
    && (c.base, it.dir.key) in c.stored
    && c.stored[(c.base, it.dir.key)].mtime == it.dir.mtime.value && !c.stored[(c.base, it.dir.key)].hadRepo
  }

  predicate Listed(c: Config, it: Item) {
    !Skipped(c, it) && !Pruned(c, it)
  }

  predicate Reported(c: Config, it: Item) {
    Listed(c, it) && it.dir.repo.Some?
  }

  /** Links are not followed here; see the README for the option that follows them. */
  predicate Descends(e: Entry) {
    e.SubDir? && !e.placeholder && !e.link
  }

  function ChildDirs(entries: seq<Entry>): nat {
    if entries == [] then 0
    else ChildDirs(entries[..|entries| - 1]) + if entries[|entries| - 1].SubDir? then 1 else 0
  }

  function ChildItems(entries: seq<Entry>, depth: nat): seq<Item> {
    if entries == [] then []
    else (if Descends(entries[0]) then [Item(entries[0].dir, depth)] else []) + ChildItems(entries[1..], depth)
  }

  /** What the loop gets to see of a directory. */
  function Yielded(d: Dir): seq<Entry> {
    if d.listing.CannotOpen? then [] else d.entries
  }

  function Children(it: Item): seq<Item> {
    if it.dir.repo.Some? then [] else ChildItems(Yielded(it.dir), it.depth + 1)
  }

  /** The error is noticed where the listing is opened, which includes reading the first entry. */
  predicate Unreadable(d: Dir) {
    d.listing.CannotOpen? || (d.listing.Breaks? && d.entries == [])
  }

  /** The error comes later, when some entries have been seen. */
  predicate BreaksPartWay(d: Dir) {
    d.listing.Breaks? && d.entries != []
  }

  function SignatureOf(it: Item): Option<(string, Signature)> {
    if Unreadable(it.dir) || it.dir.mtime.None? then None
    else Some((it.dir.key, Signature(it.dir.mtime.value, ChildDirs(it.dir.entries), it.dir.repo.Some?)))
  }

  function RecordOf(c: Config, it: Item): Record
    requires it.dir.repo.Some?
  {
    Record(it.dir.repo.value, c.base, c.generation)
  }

  lemma {:induction false} ChildItemsAppend(entries: seq<Entry>, e: Entry, depth: nat)
    ensures ChildItems(entries + [e], depth) ==
            ChildItems(entries, depth) + if Descends(e) then [Item(e.dir, depth)] else []
  {
    if entries == [] {
      assert entries + [e] == [e];
    } else {
      ChildItemsAppend(entries[1..], e, depth);
      assert (entries + [e])[1..] == entries[1..] + [e];
    }
  }

  lemma EntriesMore(entries: seq<Entry>, i: nat, depth: nat)
    requires i < |entries|
    ensures ChildDirs(entries[..i + 1]) == ChildDirs(entries[..i]) + if entries[i].SubDir? then 1 else 0
    ensures ChildItems(entries[..i + 1], depth) ==
      ChildItems(entries[..i], depth) + if Descends(entries[i]) then [Item(entries[i].dir, depth)] else []
  {
    assert entries[..i + 1][..i] == entries[..i];
    assert entries[..i + 1] == entries[..i] + [entries[i]];
    ChildItemsAppend(entries[..i], entries[i], depth);
  }

  /** What is signed, in raw fields: the key, the time, how many subdirectories were seen and whether
      there was a repository; for a directory with a time whose first read brought no error. */
  lemma SignatureByFields(it: Item)
    ensures var d := it.dir;
      SignatureOf(it) ==
        if d.mtime.None? || d.listing == CannotOpen || (d.listing == Breaks && d.entries == []) then None
        else Some((d.key, Signature(d.mtime.value, |set i | 0 <= i < |d.entries| && d.entries[i].SubDir?|,
                                    d.repo != None)))
  {
    ChildDirsIsCount(it.dir.entries);
  }

  /** The number of subdirectories among the entries. */
  lemma {:induction false} ChildDirsIsCount(entries: seq<Entry>)
    ensures ChildDirs(entries) == |set i | 0 <= i < |entries| && entries[i].SubDir?|
  {
    var all := set i | 0 <= i < |entries| && entries[i].SubDir?;
    if entries == [] {
      assert all == {};
    } else {
      var n := |entries| - 1;
      ChildDirsIsCount(entries[..n]);
      var most := set i | 0 <= i < |entries[..n]| && entries[..n][i].SubDir?;
      assert all == most + if entries[n].SubDir? then {n} else {};
    }
  }

  /** A `directory_iterator` over a directory's listing: opening it reads the first entry, and one
      that reports an error becomes the end iterator, as the C++ standard requires. */
  class DirectoryIterator {
    const dir: Dir
    var pos: nat
    var atEnd: bool

    ghost predicate Valid()
      reads this
    {
      !dir.listing.CannotOpen? && if atEnd then pos == |dir.entries| else pos < |dir.entries|
    }

    constructor (dir: Dir)
      requires !Unreadable(dir)
      ensures Valid() && this.dir == dir && pos == 0
    {
      this.dir, pos, atEnd := dir, 0, dir.entries == [];
    }

    method Increment() returns (ec: bool)
      requires Valid() && !atEnd
      modifies this
      ensures Valid() && pos == old(pos) + 1
      ensures ec == (pos == |dir.entries| && dir.listing.Breaks?)
    {
      pos := pos + 1;
      atEnd := pos == |dir.entries|;
      ec := atEnd && dir.listing.Breaks?;
    }
  }

  /** The enumeration loop: what it counts, what it would enqueue and its verdict. The loop tests the
      error only while the iterator is not at its end, where the test cannot succeed: a listing that
      breaks part-way counts as readable. */
  method Enumerate(it: Item) returns (childDirs: nat, children: seq<Item>, unreadable: bool)
    ensures childDirs == ChildDirs(Yielded(it.dir))
    ensures children == Children(it)
    ensures unreadable == Unreadable(it.dir)
  {
    var descend := it.dir.repo.None?;
    childDirs, children := 0, [];
    var ec := Unreadable(it.dir);
    unreadable := ec;
    if !ec {
      var cursor := new DirectoryIterator(it.dir);
      var entries := it.dir.entries;
      while !cursor.atEnd
        invariant cursor.Valid() && cursor.dir == it.dir && fresh(cursor)
        invariant ec ==> cursor.atEnd
        invariant childDirs == ChildDirs(entries[..cursor.pos])
        invariant children == if descend then ChildItems(entries[..cursor.pos], it.depth + 1) else []
        decreases |entries| - cursor.pos
      {
        if ec {
          unreadable := true;
          break;
        }
        var e := entries[cursor.pos];
        EntriesMore(entries, cursor.pos, it.depth + 1);
        if e.SubDir? {
          childDirs := childDirs + 1;
          if descend && !e.placeholder && !e.link {
            children := children + [Item(e.dir, it.depth + 1)];
          }
        }
        ec := cursor.Increment();
      }
      assert entries[..|entries|] == entries;
    }
  }

  // ----- the recursive specification -----

  /** Every directory the walk must take up below and including `it`, each as often as it occurs:
      none below one that is too deep, skipped, pruned or a repository. */
  ghost function Visits(c: Config, it: Item): multiset<Item>
    decreases it.dir, 1
  {
    multiset{it} +
      if Listed(c, it) && it.dir.repo.None? && !it.dir.listing.CannotOpen?
      then VisitsIn(c, it.dir.entries, it.depth + 1) else multiset{}
  }

  ghost function VisitsIn(c: Config, entries: seq<Entry>, depth: nat): multiset<Item>
    decreases entries, 0
  {
    if entries == [] then multiset{}
    else EntryVisits(c, entries[0], depth) + VisitsIn(c, entries[1..], depth)
  }

  ghost function EntryVisits(c: Config, e: Entry, depth: nat): multiset<Item>
    decreases e, 2
  {
    if Descends(e) then Visits(c, Item(e.dir, depth)) else multiset{}
  }

  ghost function AllVisits(c: Config): multiset<Item> {
    Visits(c, Item(c.root, 0))
  }

  /** Among the directories `all`, one is listed and holds repository `k`. */
  ghost predicate Found(c: Config, all: multiset<Item>, k: RowKey) {
    exists it :: it in all && Reported(c, it) && it.dir.repo.value == k
  }

  /** Among the directories `all`, one with path `p` is pruned. */
  ghost predicate PrunedPath(c: Config, all: multiset<Item>, p: string) {
    exists it :: it in all && Pruned(c, it) && it.dir.path == p
  }

  /** Among the directories `all`, one was listed with this signature. */
  ghost predicate Signed(c: Config, all: multiset<Item>, signature: (string, Signature)) {
    exists it :: it in all && Listed(c, it) && SignatureOf(it) == Some(signature)
  }

  // ----- the state under the mutex -----

  datatype Shared = Shared(
    queue: seq<Item>,
    pending: seq<Record>,
    signatures: seq<(string, Signature)>,
    active: nat,
    failed: bool)

  function AfterTake(s: Shared): Shared
    requires s.queue != []
  {
    s.(queue := s.queue[1..], active := s.active + 1)
  }

  function AfterRelease(s: Shared): Shared
    requires s.active > 0
  {
    s.(active := s.active - 1)
  }

  function AfterFound(s: Shared, r: Record): Shared {
    s.(pending := s.pending + [r])
  }

  function AfterListing(s: Shared, children: seq<Item>, signature: Option<(string, Signature)>): Shared {
    s.(queue := s.queue + children,
       signatures := if signature.Some? then s.signatures + [signature.value] else s.signatures)
  }

  /** What a worker that looks at the queue learns. */
  datatype Poll = Finished | Wait | Work(item: Item)

  function PollOf(s: Shared): Poll {
    if s.queue != [] then Work(s.queue[0]) else if s.active == 0 then Finished else Wait
  }

  class SharedState {
    var queue: seq<Item>
    var pending: seq<Record>
    var signatures: seq<(string, Signature)>
    var active: nat
    var failed: bool

    ghost function View(): Shared
      reads this
    {
      Shared(queue, pending, signatures, active, failed)
    }

    constructor (root: Dir)
      ensures View() == Shared([Item(root, 0)], [], [], 0, false)
    {
      queue, pending, signatures, active, failed := [Item(root, 0)], [], [], 0, false;
    }

    method TakeWork() returns (p: Poll)
      modifies this
      ensures p == PollOf(old(View()))
      ensures View() == if p.Work? then AfterTake(old(View())) else old(View())
      ensures p == Finished <==> old(queue) == [] && old(active) == 0
      ensures p == Wait <==> old(queue) == [] && old(active) > 0
      ensures p.Work? ==> old(queue) == [p.item] + queue && active == old(active) + 1
    {
      if queue == [] {
        if active == 0 {
          return Finished;
        }
        return Wait;
      }
      p := Work(queue[0]);
      queue := queue[1..];
      active := active + 1;
    }

    method Release()
      requires active > 0
      modifies this
      ensures View() == AfterRelease(old(View()))
      ensures active == old(active) - 1
    {
      active := active - 1;
    }

    method AddRecord(r: Record) returns (pendingCount: nat)
      modifies this
      ensures View() == AfterFound(old(View()), r)
      ensures pending == old(pending) + [r] && pendingCount == |pending|
    {
      pending := pending + [r];
      pendingCount := |pending|;
    }

    method SwapPending() returns (batch: seq<Record>)
      modifies this
      ensures View() == old(View()).(pending := [])
      ensures batch == old(pending)
    {
      batch, pending := pending, [];
    }

    method PublishListing(it: Item)
      modifies this
      ensures View() == AfterListing(old(View()), Children(it), SignatureOf(it))
      ensures queue == old(queue) + Children(it)
      ensures signatures == old(signatures) + if SignatureOf(it).Some? then [SignatureOf(it).value] else []
    {
      var childDirs, children, unreadable := Enumerate(it);
      for i := 0 to |children|
        invariant queue == old(queue) + children[..i]
        invariant pending == old(pending) && signatures == old(signatures)
        invariant active == old(active) && failed == old(failed)
      {
        assert children[..i + 1] == children[..i] + [children[i]];
        queue := queue + [children[i]];
      }
      assert children[..|children|] == children;
      if !unreadable && it.dir.mtime.Some? {
        var s := Signature(it.dir.mtime.value, childDirs, it.dir.repo.Some?);
        signatures := signatures + [(it.dir.key, s)];
      }
    }

    method Fail()
      modifies this
      ensures View() == old(View()).(failed := true)
    {
      failed := true;
    }
  }

  // ----- the whole scan -----

  /** Where one worker stands. From `Taken` to `Releasing` it counts as active, and so does one that
      an exception unwinds; `Failing` has been released and not yet recorded its failure. */
  datatype Phase =
    | Idle
    | Taken(it: Item)
    | Checked(it: Item)
    | Touched(it: Item)
    | FlushSwap(it: Item)
    | FlushCommit(it: Item, batch: seq<Record>)
    | Listing(it: Item)
    | Releasing(exits: bool)
    | Unwinding
    | Failing
    | Exited

  /** Where the thread that called `scan()` stands. `Done(None)` is a failed scan, and
      `Done(Some(b))` one whose result says cancelled = b. */
  datatype Main = Walking | Joined | Flushed | Saving(from: nat) | Sweeping | Marking | Done(cancelled: Option<bool>)

  /** `sawCancel` records that a worker left because of the token, and `handled` the directories
      that are finished with. */
  datatype Walk = Walk(
    shared: Shared,
    workers: seq<Phase>,
    cancelled: bool,
    sawCancel: bool,
    main: Main,
    handled: multiset<Item>)

  /** The database as this scan sees it, with what the scan has put there: the repositories whose
      records were queued, those committed, and the paths whose rows were touched. */
  datatype Ledger = Ledger(
    rows: Rows,
    stored: Signatures,
    reported: set<RowKey>,
    committed: set<RowKey>,
    touched: set<string>)

  datatype Scan = Scan(walk: Walk, ledger: Ledger)

  /** A worker's next critical section is decided by where it stands, and so is the caller's. */
  datatype Event = Cancel | Advance(i: nat) | Fail(i: nat) | Throw(i: nat) | Proceed | ProceedFails

  predicate HasItem(p: Phase) {
    p.Taken? || p.Checked? || p.Touched? || p.FlushSwap? || p.FlushCommit? || p.Listing?
  }

  predicate IsBusy(p: Phase) {
    HasItem(p) || p.Releasing? || p.Unwinding?
  }

  /** The steps that take the worker off the active count. */
  predicate Releases(p: Phase) {
    p.Releasing? || p.Unwinding?
  }

  predicate Enabled(w: Walk, e: Event) {
    match e
    case Cancel => true
    case Advance(i) =>
      i < |w.workers| && !w.workers[i].Exited? && (Releases(w.workers[i]) ==> w.shared.active > 0)
    case Throw(i) => i < |w.workers| && HasItem(w.workers[i])
    case Fail(i) => i < |w.workers| && HasItem(w.workers[i])
    case Proceed =>
      && !w.main.Done?
      && (w.main.Walking? ==> forall i :: 0 <= i < |w.workers| ==> w.workers[i].Exited?)
      && (w.main.Saving? ==> w.main.from <= |w.shared.signatures|)
    case ProceedFails => w.main.Joined? || w.main.Saving? || w.main.Marking?
  }

  function NextPhase(c: Config, w: Walk, p: Phase): Phase {
    match p
    case Idle =>
      (match PollOf(w.shared)
       case Finished => Exited
       case Wait => Idle
       case Work(it) => Taken(it))
    case Taken(it) => if w.cancelled then Releasing(true) else Checked(it)
    case Checked(it) =>
      if Skipped(c, it) then Releasing(false)
      else if Pruned(c, it) then Touched(it)
      else if it.dir.repo.Some? && |w.shared.pending| + 1 >= BATCH_SIZE then FlushSwap(it)
      else Listing(it)
    case Touched(it) => Releasing(false)
    case FlushSwap(it) => if w.shared.pending == [] then Listing(it) else FlushCommit(it, w.shared.pending)
    case FlushCommit(it, _) => Listing(it)
    case Listing(it) => Releasing(false)
    case Releasing(exits) => if exits then Exited else Idle
    case Unwinding => Failing
    case Failing => Exited
    case Exited => Exited
  }

  /** The critical section of a worker at `p`. */
  function NextShared(c: Config, s: Shared, p: Phase): Shared
    requires Releases(p) ==> s.active > 0
  {
    match p
    case Idle => if PollOf(s).Work? then AfterTake(s) else s
    case Checked(it) => if Reported(c, it) then AfterFound(s, RecordOf(c, it)) else s
    case FlushSwap(_) => s.(pending := [])
    case Listing(it) => AfterListing(s, Children(it), SignatureOf(it))
    case Releasing(_) => AfterRelease(s)
    case Unwinding => AfterRelease(s)
    case Failing => s.(failed := true)
    case _ => s
  }

  /** The directory a worker at `p` is finished with after its step, if any. */
  function NowHandled(c: Config, p: Phase): multiset<Item> {
    if p.Touched? || p.Listing? || (p.Checked? && Skipped(c, p.it)) then multiset{p.it} else multiset{}
  }

  function SaveEnd(w: Walk): nat
    requires w.main.Saving?
  {
    var n := |w.shared.signatures|;
    if w.main.from + SIGNATURE_CHUNK < n then w.main.from + SIGNATURE_CHUNK else n
  }

  function NextMain(w: Walk): Main
    requires !w.main.Done?
  {
    match w.main
    case Walking => if w.shared.failed then Done(None) else Joined
    case Joined => Flushed
    case Flushed => if !w.cancelled && w.shared.signatures != [] then Saving(0) else Sweeping
    case Saving(_) => if SaveEnd(w) == |w.shared.signatures| then Sweeping else Saving(SaveEnd(w))
    case Sweeping => if w.cancelled then Done(Some(true)) else Marking
    case Marking => Done(Some(false))
  }

  function WalkStep(c: Config, w: Walk, e: Event): Walk
    requires Enabled(w, e)
  {
    match e
    case Cancel => w.(cancelled := true)
    case Advance(i) =>
      var p := w.workers[i];
      Walk(NextShared(c, w.shared, p), w.workers[i := NextPhase(c, w, p)], w.cancelled,
           w.sawCancel || (p.Taken? && w.cancelled), w.main, w.handled + NowHandled(c, p))
    case Fail(i) => w.(shared := w.shared.(failed := true), workers := w.workers[i := Releasing(true)])
    case Throw(i) => w.(workers := w.workers[i := Unwinding])
    case Proceed =>
      w.(main := NextMain(w), shared := if w.main.Joined? then w.shared.(pending := []) else w.shared)
    case ProceedFails => w.(main := Done(None))
  }

  function Keys(batch: seq<Record>): set<RowKey> {
    set r | r in batch :: r.key
  }

  function CommitTo(l: Ledger, batch: seq<Record>): Ledger {
    l.(rows := UpsertAll(l.rows, batch), committed := l.committed + Keys(batch))
  }

  function SaveAll(base: int, stored: Signatures, sigs: seq<(string, Signature)>): Signatures {
    if sigs == [] then stored
    else Saved(SaveAll(base, stored, sigs[..|sigs| - 1]), base, sigs[|sigs| - 1].0, sigs[|sigs| - 1].1)
  }

  function WorkerLedger(c: Config, l: Ledger, p: Phase): Ledger {
    match p
    case Checked(it) =>
      if Pruned(c, it) then
        l.(rows := Touch(l.rows, c.base, it.dir.path, c.generation), touched := l.touched + {it.dir.path})
      else if Reported(c, it) then l.(reported := l.reported + {it.dir.repo.value})
      else l
    case FlushCommit(_, batch) => CommitTo(l, batch)
    case _ => l
  }

  function MainLedger(c: Config, w: Walk, l: Ledger): Ledger
    requires Enabled(w, Proceed)
  {
    match w.main
    case Joined => CommitTo(l, w.shared.pending)
    case Saving(from) => l.(stored := SaveAll(c.base, l.stored, w.shared.signatures[from..SaveEnd(w)]))
    case Marking => l.(rows := MarkMissing(l.rows, c.base, c.generation))
    case _ => l
  }

  function LedgerStep(c: Config, s: Scan, e: Event): Ledger
    requires Enabled(s.walk, e)
  {
    match e
    case Advance(i) => WorkerLedger(c, s.ledger, s.walk.workers[i])
    case Proceed => MainLedger(c, s.walk, s.ledger)
    case _ => s.ledger
  }

  function Step(c: Config, s: Scan, e: Event): Scan
    requires Enabled(s.walk, e)
  {
    Scan(WalkStep(c, s.walk, e), LedgerStep(c, s, e))
  }

  /** Any number of workers are started, on a token that may already be cancelled. */
  ghost predicate Initial(c: Config, s: Scan) {
    var ws := s.walk.workers;
    && |ws| > 0 && (forall i :: 0 <= i < |ws| ==> ws[i].Idle?)
    && s.walk == Walk(Shared([Item(c.root, 0)], [], [], 0, false), ws, s.walk.cancelled, false, Walking, multiset{})
    && s.ledger == Ledger(c.start, c.stored, {}, {}, {})
  }

  ghost predicate ValidRun(c: Config, s: Scan, es: seq<Event>)
    decreases |es|
  {
    es == [] || (Enabled(s.walk, es[0]) && ValidRun(c, Step(c, s, es[0]), es[1..]))
  }

  ghost function Play(c: Config, s: Scan, es: seq<Event>): Scan
    requires ValidRun(c, s, es)
    decreases |es|
  {
    if es == [] then s else Play(c, Step(c, s, es[0]), es[1..])
  }

  /** Batches of twenty and chunks of five hundred: a worker that found a repository flushes exactly when
      the batch has twenty records, and a chunk of signatures has at most five hundred. */
  lemma BatchesByNumbers(c: Config, w: Walk, it: Item)
    ensures NextPhase(c, w, Checked(it)) == FlushSwap(it) <==> Reported(c, it) && |w.shared.pending| + 1 >= 20
    ensures w.main.Saving? && w.main.from <= |w.shared.signatures| ==>
      SaveEnd(w) - w.main.from <= 500 && (SaveEnd(w) == |w.shared.signatures| || SaveEnd(w) == w.main.from + 500)
  {
  }
}
