/**
  What a scan finds, said over the directories themselves: a repository is committed exactly when a
  path of directories leads to it that the depth limit, the skip rules and the pruning leave open.
*/
module ScanPaths {
  import opened Basics
  import opened RepoIndex
  import opened Scanner
  import opened ScannerRuns
  import opened ScanIncremental

  // ----- paths over raw fields -----

  /** `e` is a subdirectory of `d`, no cloud placeholder and no link. */
  predicate IsSubDir(d: Dir, e: Dir) {
    exists i :: 0 <= i < |d.entries| && d.entries[i] == SubDir(false, false, e)
  }

  /** The walk can go on from `d` to `e`: `d` is no repository, can be listed and shows `e`. */
  predicate LeadsTo(d: Dir, e: Dir) {
    d.repo.None? && d.listing != CannotOpen && IsSubDir(d, e)
  }

  /** From the root down, no deeper than the limit, through nothing that the skip rules name; the root
      itself is not asked. */
  ghost predicate WalkPath(c: Config, ds: seq<Dir>) {
    && ds != [] && ds[0] == c.root && |ds| - 1 <= c.maxDepth
    && (forall i :: 0 <= i < |ds| - 1 ==> LeadsTo(ds[i], ds[i + 1]))
    && (forall i :: 0 < i < |ds| ==> !ds[i].skip)
  }

  /** An Incremental scan has a signature for `d` with the same time, under which there was no
      repository. */
  predicate Unchanged(c: Config, d: Dir) {
    && c.incremental && d.mtime.Some? && (c.base, d.key) in c.stored
    && c.stored[(c.base, d.key)].mtime == d.mtime.value && !c.stored[(c.base, d.key)].hadRepo
  }

  ghost predicate NoneUnchanged(c: Config, ds: seq<Dir>) {
    forall i :: 0 <= i < |ds| ==> !Unchanged(c, ds[i])
  }

  ghost predicate LeadsToRepo(ds: seq<Dir>, k: RowKey) {
    ds != [] && ds[|ds| - 1].repo == Some(k)
  }

  // ----- visits are paths -----

  /** A path on which the walk, standing at `it`, gets to its last directory. */
  ghost predicate Chain(c: Config, it: Item, ds: seq<Dir>)
    decreases |ds|
  {
    && ds != [] && ds[0] == it.dir
    && (|ds| > 1 ==> Listed(c, it) && LeadsTo(ds[0], ds[1]) && Chain(c, Item(ds[1], it.depth + 1), ds[1..]))
  }

  /** The item at the end of such a path. */
  function Last(it: Item, ds: seq<Dir>): Item
    requires ds != []
  {
    Item(ds[|ds| - 1], it.depth + |ds| - 1)
  }

  lemma {:induction false} ChainIsVisited(c: Config, it: Item, ds: seq<Dir>)
    requires Chain(c, it, ds)
    ensures Last(it, ds) in Visits(c, it)
    decreases |ds|
  {
    if |ds| > 1 {
      var next := Item(ds[1], it.depth + 1);
      ChainIsVisited(c, next, ds[1..]);
      assert Last(next, ds[1..]) == Last(it, ds);
      var i :| 0 <= i < |it.dir.entries| && it.dir.entries[i] == SubDir(false, false, ds[1]);
      VisitBelow(c, it, i, Last(it, ds));
    }
  }

  lemma {:induction false} VisitedHasChain(c: Config, it: Item, x: Item) returns (ds: seq<Dir>)
    requires x in Visits(c, it)
    ensures Chain(c, it, ds) && Last(it, ds) == x
    decreases it.dir
  {
    if x == it {
      ds := [it.dir];
    } else {
      var i := VisitCases(c, it, x);
      var next := ChildOf(it, i);
      var rest := VisitedHasChain(c, next, x);
      ds := [it.dir] + rest;
      assert ds[1..] == rest && it.dir.entries[i] == SubDir(false, false, next.dir);
    }
  }

  /** What a chain says of the directories on it. */
  lemma {:induction false} ChainAt(c: Config, it: Item, ds: seq<Dir>, i: nat)
    requires Chain(c, it, ds) && i < |ds| - 1
    ensures Listed(c, Item(ds[i], it.depth + i)) && LeadsTo(ds[i], ds[i + 1])
    decreases |ds|
  {
    if i > 0 {
      ChainAt(c, Item(ds[1], it.depth + 1), ds[1..], i - 1);
    }
  }

  lemma {:induction false} ChainFrom(c: Config, it: Item, ds: seq<Dir>)
    requires ds != [] && ds[0] == it.dir
    requires forall i :: 0 <= i < |ds| - 1 ==> Listed(c, Item(ds[i], it.depth + i)) && LeadsTo(ds[i], ds[i + 1])
    ensures Chain(c, it, ds)
    decreases |ds|
  {
    if |ds| > 1 {
      assert Listed(c, Item(ds[0], it.depth + 0));
      var rest := ds[1..];
      forall i | 0 <= i < |rest| - 1
        ensures Listed(c, Item(rest[i], it.depth + 1 + i)) && LeadsTo(rest[i], rest[i + 1])
      {
        assert Listed(c, Item(ds[i + 1], it.depth + (i + 1)));
      }
      ChainFrom(c, Item(ds[1], it.depth + 1), rest);
    }
  }

  /** Being listed, in raw fields. */
  lemma ListedIff(c: Config, d: Dir, depth: nat)
    ensures Listed(c, Item(d, depth)) <==> depth <= c.maxDepth && (depth > 0 ==> !d.skip) && !Unchanged(c, d)
  {
  }

  lemma ListedChainIsPath(c: Config, ds: seq<Dir>)
    requires Chain(c, Item(c.root, 0), ds) && Listed(c, Last(Item(c.root, 0), ds))
    ensures WalkPath(c, ds) && NoneUnchanged(c, ds)
  {
    forall i | 0 <= i < |ds|
      ensures (i > 0 ==> !ds[i].skip) && !Unchanged(c, ds[i])
      ensures i < |ds| - 1 ==> LeadsTo(ds[i], ds[i + 1])
    {
      if i < |ds| - 1 {
        ChainAt(c, Item(c.root, 0), ds, i);
      }
      ListedIff(c, ds[i], i);
    }
    ListedIff(c, ds[|ds| - 1], |ds| - 1);
  }

  lemma PathIsListedChain(c: Config, ds: seq<Dir>)
    requires WalkPath(c, ds) && forall i :: 0 <= i < |ds| - 1 ==> !Unchanged(c, ds[i])
    ensures Chain(c, Item(c.root, 0), ds)
    ensures Listed(c, Last(Item(c.root, 0), ds)) <==> !Unchanged(c, ds[|ds| - 1])
  {
    forall i | 0 <= i < |ds| - 1
      ensures Listed(c, Item(ds[i], 0 + i))
    {
      ListedIff(c, ds[i], i);
    }
    ChainFrom(c, Item(c.root, 0), ds);
    ListedIff(c, ds[|ds| - 1], |ds| - 1);
  }

  /** A repository is found exactly when an open path leads to it. */
  lemma FoundIffPath(c: Config, k: RowKey)
    ensures Found(c, AllVisits(c), k) <==>
      exists ds: seq<Dir> :: WalkPath(c, ds) && NoneUnchanged(c, ds) && LeadsToRepo(ds, k)
  {
    var root := Item(c.root, 0);
    if Found(c, AllVisits(c), k) {
      var x :| x in AllVisits(c) && Reported(c, x) && x.dir.repo.value == k;
      var ds := VisitedHasChain(c, root, x);
      ListedChainIsPath(c, ds);
      assert LeadsToRepo(ds, k);
    }
    if ds: seq<Dir> :| WalkPath(c, ds) && NoneUnchanged(c, ds) && LeadsToRepo(ds, k) {
      PathIsListedChain(c, ds);
      ChainIsVisited(c, root, ds);
      assert Reported(c, Last(root, ds));
    }
  }

  /** A completed Full scan leaves a repository live exactly when a walk path leads to it. */
  lemma FullScanFindsAllPaths(c: Config, s: Scan, es: seq<Event>, k: RowKey)
    requires OlderGenerations(c) && !c.incremental
    requires Initial(c, s) && ValidRun(c, s, es) && Play(c, s, es).walk.main == Done(Some(false))
    ensures Live(Play(c, s, es).ledger.rows, c.base, k) <==>
      exists ds: seq<Dir> :: WalkPath(c, ds) && LeadsToRepo(ds, k)
  {
    FullScanIsExact(c, s, es, k);
    FoundIffPath(c, k);
    if ds: seq<Dir> :| WalkPath(c, ds) && LeadsToRepo(ds, k) {
      assert NoneUnchanged(c, ds);
    }
  }

  /** A path whose last directory is the first that an Incremental scan finds unchanged. */
  ghost predicate PruningPath(c: Config, ds: seq<Dir>) {
    && WalkPath(c, ds) && Unchanged(c, ds[|ds| - 1])
    && (forall i :: 0 <= i < |ds| - 1 ==> !Unchanged(c, ds[i]))
  }

  lemma PrunedIffPath(c: Config, p: string)
    ensures PrunedPath(c, AllVisits(c), p) <==> exists ds: seq<Dir> :: PruningPath(c, ds) && ds[|ds| - 1].path == p
  {
    var root := Item(c.root, 0);
    if PrunedPath(c, AllVisits(c), p) {
      var x :| x in AllVisits(c) && Pruned(c, x) && x.dir.path == p;
      var ds := VisitedHasChain(c, root, x);
      PrunedChainIsPath(c, ds);
    }
    if ds: seq<Dir> :| PruningPath(c, ds) && ds[|ds| - 1].path == p {
      PathIsListedChain(c, ds);
      ChainIsVisited(c, root, ds);
      assert Pruned(c, Last(root, ds));
    }
  }

  lemma PrunedChainIsPath(c: Config, ds: seq<Dir>)
    requires Chain(c, Item(c.root, 0), ds) && Pruned(c, Last(Item(c.root, 0), ds))
    ensures PruningPath(c, ds)
  {
    forall i | 0 <= i < |ds| - 1
      ensures (i > 0 ==> !ds[i].skip) && !Unchanged(c, ds[i]) && LeadsTo(ds[i], ds[i + 1])
    {
      ChainAt(c, Item(c.root, 0), ds, i);
      ListedIff(c, ds[i], i);
    }
  }

  // ----- every row after a scan -----

  /** A row as a completed scan leaves it: found, touched with a pruned directory, missing, or another
      folder's. */
  ghost function RowAfter(c: Config, k: RowKey): Option<Row> {
    if exists ds: seq<Dir> :: WalkPath(c, ds) && NoneUnchanged(c, ds) && LeadsToRepo(ds, k)
    then Some(Row(c.base, c.generation, false))
    else if k !in c.start then None
    else if c.start[k].base != c.base then Some(c.start[k])
    else if exists ds: seq<Dir> :: PruningPath(c, ds) && Under(ds[|ds| - 1].path, k)
    then Some(c.start[k].(lastSeen := c.generation))
    else Some(c.start[k].(missing := true))
  }

  lemma RowWhenDone(c: Config, t: Scan, k: RowKey)
    requires OlderGenerations(c) && RowsOk(c, t) && FoundAll(c, t) && t.walk.main == Done(Some(false))
    ensures k in t.ledger.rows <==> k in c.start || Found(c, AllVisits(c), k)
    ensures k in t.ledger.rows ==>
      t.ledger.rows[k] ==
        if Found(c, AllVisits(c), k) then Row(c.base, c.generation, false)
        else if c.start[k].base != c.base then c.start[k]
        else if TouchedRow(t.ledger, k) then c.start[k].(lastSeen := c.generation)
        else c.start[k].(missing := true)
  {
  }

  /** The whole table after a completed scan, row by row. */
  lemma RowsAfterScan(c: Config, s: Scan, es: seq<Event>, k: RowKey)
    requires OlderGenerations(c)
    requires Initial(c, s) && ValidRun(c, s, es) && Play(c, s, es).walk.main == Done(Some(false))
    ensures var rows := Play(c, s, es).ledger.rows;
      (if k in rows then Some(rows[k]) else None) == RowAfter(c, k)
  {
    var t := Reached(c, s, es);
    CompletedFoundAll(c, t);
    RowWhenDone(c, t, k);
    FoundIffPath(c, k);
    TouchedIffPath(c, t, k);
  }

  lemma TouchedIffPath(c: Config, t: Scan, k: RowKey)
    requires FoundAll(c, t)
    ensures TouchedRow(t.ledger, k) <==> exists ds: seq<Dir> :: PruningPath(c, ds) && Under(ds[|ds| - 1].path, k)
  {
    if TouchedRow(t.ledger, k) {
      var p :| p in t.ledger.touched && Under(p, k);
      PrunedIffPath(c, p);
    }
    if ds: seq<Dir> :| PruningPath(c, ds) && Under(ds[|ds| - 1].path, k) {
      PrunedIffPath(c, ds[|ds| - 1].path);
    }
  }
}
