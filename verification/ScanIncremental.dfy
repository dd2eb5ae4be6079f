/**
  What an Incremental scan may leave unvisited: whatever a Full scan of the same tree would find and
  the pruned walk does not reach lies in a pruned directory, whose rows are touched.
*/
module ScanIncremental {
  import opened Basics
  import opened RepoIndex
  import opened Scanner
  import opened ScannerRuns

  /** Paths are built from the parent's path on the way down, and a repository's work or git directory
      from the path of the directory it was found in. */
  predicate Nested(d: Dir) {
    && (d.repo.Some? ==> d.path <= d.repo.value.workDir || d.path <= d.repo.value.gitDir)
    && (forall i :: 0 <= i < |d.entries| && Descends(d.entries[i]) ==>
          d.path <= d.entries[i].dir.path && Nested(d.entries[i].dir))
  }

  /** The same scan without pruning. */
  function Unpruned(c: Config): Config {
    c.(incremental := false)
  }

  /** Whatever is visited below these entries is visited below one of them. */
  lemma {:induction false} VisitedBelowEntry(c: Config, entries: seq<Entry>, depth: nat, x: Item) returns (i: nat)
    requires x in VisitsIn(c, entries, depth)
    ensures i < |entries| && Descends(entries[i]) && x in Visits(c, Item(entries[i].dir, depth))
  {
    if x in EntryVisits(c, entries[0], depth) {
      i := 0;
    } else {
      var j := VisitedBelowEntry(c, entries[1..], depth, x);
      i := j + 1;
    }
  }

  lemma {:induction false} VisitedWithEntry(c: Config, entries: seq<Entry>, depth: nat, i: nat, x: Item)
    requires i < |entries| && Descends(entries[i]) && x in Visits(c, Item(entries[i].dir, depth))
    ensures x in VisitsIn(c, entries, depth)
  {
    if i > 0 {
      VisitedWithEntry(c, entries[1..], depth, i - 1, x);
    }
  }

  /** The item of entry number `i`. */
  function ChildOf(it: Item, i: nat): Item
    requires i < |it.dir.entries| && Descends(it.dir.entries[i])
  {
    Item(it.dir.entries[i].dir, it.depth + 1)
  }

  /** A visit is the directory itself, or a visit below a child that the walk descends into. */
  lemma VisitCases(c: Config, it: Item, x: Item) returns (i: nat)
    requires x in Visits(c, it) && x != it
    ensures Listed(c, it) && it.dir.repo.None? && !it.dir.listing.CannotOpen?
    ensures i < |it.dir.entries| && Descends(it.dir.entries[i]) && x in Visits(c, ChildOf(it, i))
  {
    i := VisitedBelowEntry(c, it.dir.entries, it.depth + 1, x);
  }

  lemma VisitBelow(c: Config, it: Item, i: nat, x: Item)
    requires Listed(c, it) && it.dir.repo.None? && !it.dir.listing.CannotOpen?
    requires i < |it.dir.entries| && Descends(it.dir.entries[i]) && x in Visits(c, ChildOf(it, i))
    ensures x in Visits(c, it)
  {
    VisitedWithEntry(c, it.dir.entries, it.depth + 1, i, x);
  }

  lemma {:induction false} VisitsExtend(c: Config, it: Item, x: Item)
    requires Nested(it.dir) && x in Visits(c, it)
    ensures it.dir.path <= x.dir.path && Nested(x.dir)
    decreases it.dir
  {
    if x != it {
      var i := VisitCases(c, it, x);
      VisitsExtend(c, ChildOf(it, i), x);
    }
  }

  /** Below `it` the walk prunes a directory whose path the path of `x` extends. */
  ghost predicate PrunedAbove(c: Config, it: Item, x: Item) {
    exists p :: p in Visits(c, it) && Pruned(c, p) && p.dir.path <= x.dir.path
  }

  /** A directory that the unpruned walk visits is visited, or lies in a pruned one. */
  lemma {:induction false} VisitedOrPruned(c: Config, it: Item, x: Item)
    requires Nested(it.dir) && x in Visits(Unpruned(c), it)
    ensures x in Visits(c, it) || PrunedAbove(c, it, x)
    decreases it.dir
  {
    if Pruned(c, it) {
      VisitsExtend(Unpruned(c), it, x);
      assert it in Visits(c, it);
    } else if x != it {
      var i := VisitCases(Unpruned(c), it, x);
      VisitedOrPruned(c, ChildOf(it, i), x);
      if x in Visits(c, ChildOf(it, i)) {
        VisitBelow(c, it, i, x);
      } else {
        var p :| p in Visits(c, ChildOf(it, i)) && Pruned(c, p) && p.dir.path <= x.dir.path;
        VisitBelow(c, it, i, p);
      }
    }
  }

  /** A repository that the unpruned walk finds is found, or its row is touched with a pruned
      directory. */
  lemma FoundOrTouched(c: Config, k: RowKey)
    requires Nested(c.root) && Found(Unpruned(c), AllVisits(Unpruned(c)), k)
    ensures Found(c, AllVisits(c), k) || exists p :: PrunedPath(c, AllVisits(c), p) && Under(p, k)
  {
    var root, full := Item(c.root, 0), Unpruned(c);
    var x :| x in AllVisits(full) && Reported(full, x) && x.dir.repo.value == k;
    VisitsExtend(full, root, x);
    VisitedOrPruned(c, root, x);
    if x in Visits(c, root) && !Pruned(c, x) {
      assert Reported(c, x);
    } else {
      if Pruned(c, x) && x in Visits(c, root) {
        assert PrunedAbove(c, root, x);
      }
      var p :| p in Visits(c, root) && Pruned(c, p) && p.dir.path <= x.dir.path;
      PathsExtend(p.dir.path, x.dir.path, k);
      assert PrunedPath(c, AllVisits(c), p.dir.path);
    }
  }

  lemma PathsExtend(p: string, q: string, k: RowKey)
    requires p <= q && (q <= k.workDir || q <= k.gitDir)
    ensures Under(p, k)
  {
    UnderIsPrefix(p, k);
    if q <= k.workDir {
      FoldPrefix(p, k.workDir);
    } else {
      FoldPrefix(p, k.gitDir);
    }
  }

  /** Nothing wrongly goes missing: after a completed scan, Incremental or Full, a repository that an
      unpruned walk of the tree finds is live if and only if it was live before or this walk found
      it. */
  lemma RepositoryOnDiskIsLiveIff(c: Config, s: Scan, es: seq<Event>, k: RowKey)
    requires OlderGenerations(c) && Nested(c.root)
    requires Initial(c, s) && ValidRun(c, s, es) && Play(c, s, es).walk.main == Done(Some(false))
    requires Found(Unpruned(c), AllVisits(Unpruned(c)), k)
    ensures Live(Play(c, s, es).ledger.rows, c.base, k) <==> Live(c.start, c.base, k) || Found(c, AllVisits(c), k)
  {
    LiveRowsAfterScan(c, s, es, k);
    FoundOrTouched(c, k);
  }

  /** So over every run, completed, cancelled, failed or unfinished, no live repository that is still
      on disk is marked missing. */
  lemma NothingOnDiskGoesMissing(c: Config, s: Scan, es: seq<Event>, k: RowKey)
    requires OlderGenerations(c) && Nested(c.root) && Initial(c, s) && ValidRun(c, s, es)
    requires Live(c.start, c.base, k) && Found(Unpruned(c), AllVisits(Unpruned(c)), k)
    ensures var rows := Play(c, s, es).ledger.rows; k in rows && !rows[k].missing
  {
    if Play(c, s, es).walk.main == Done(Some(false)) {
      RepositoryOnDiskIsLiveIff(c, s, es, k);
    } else {
      NothingGoesMissingEarly(c, s, es, k);
    }
  }
}
