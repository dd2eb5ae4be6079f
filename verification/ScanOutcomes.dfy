/** Two things a completed scan can get wrong, exactly when, and runs that do. */
module ScanOutcomes {
  import opened Basics
  import opened RepoIndex
  import opened Scanner
  import opened ScannerRuns
  import opened ScanCompletes
  import opened ScanSeries

  // ----- rows kept for a pruned directory they are not in -----

  ghost predicate BelowPruned(c: Config, sep: char, k: RowKey) {
    exists p :: PrunedPath(c, AllVisits(c), p) && RowAtOrBelow(p, sep, k)
  }

  /** The row strays from some pruned directory. */
  ghost predicate StraysFromPruned(c: Config, sep: char, k: RowKey) {
    exists p :: PrunedPath(c, AllVisits(c), p) && RowStrays(p, sep, k)
  }

  lemma TouchedIsBelowOrStray(c: Config, sep: char, k: RowKey)
    ensures (exists p :: PrunedPath(c, AllVisits(c), p) && Under(p, k)) <==>
      BelowPruned(c, sep, k) || StraysFromPruned(c, sep, k)
  {
    forall p
      ensures Under(p, k) <==> RowAtOrBelow(p, sep, k) || RowStrays(p, sep, k)
    {
      UnderIsBelowOrStray(p, sep, k);
    }
  }

  /** The row was neither found nor lies in a directory that the scan left unvisited. */
  ghost predicate Unaccounted(c: Config, sep: char, k: RowKey) {
    !Found(c, AllVisits(c), k) && !BelowPruned(c, sep, k)
  }

  lemma UnaccountedRow(c: Config, s: Scan, es: seq<Event>, sep: char, k: RowKey)
    requires OlderGenerations(c) && Unaccounted(c, sep, k)
    requires Initial(c, s) && ValidRun(c, s, es) && Play(c, s, es).walk.main == Done(Some(false))
    ensures Live(Play(c, s, es).ledger.rows, c.base, k) <==> Live(c.start, c.base, k) && StraysFromPruned(c, sep, k)
  {
    LiveRowsAfterScan(c, s, es, k);
    TouchedIsBelowOrStray(c, sep, k);
  }

  /** A completed scan leaves live only rows that it found or that lie in a directory it left
      unvisited, if and only if no other live row strays from a pruned directory. */
  lemma OnlyAccountedRowsLiveIff(c: Config, s: Scan, es: seq<Event>, sep: char)
    requires OlderGenerations(c)
    requires Initial(c, s) && ValidRun(c, s, es) && Play(c, s, es).walk.main == Done(Some(false))
    ensures (forall k :: Live(Play(c, s, es).ledger.rows, c.base, k) ==> !Unaccounted(c, sep, k)) <==>
      (forall k :: Live(c.start, c.base, k) && StraysFromPruned(c, sep, k) ==> !Unaccounted(c, sep, k))
  {
    var rows := Play(c, s, es).ledger.rows;
    forall k | Unaccounted(c, sep, k)
      ensures Live(rows, c.base, k) <==> Live(c.start, c.base, k) && StraysFromPruned(c, sep, k)
    {
      UnaccountedRow(c, s, es, sep, k);
    }
  }

  // ----- a sibling that is gone and stays live -----

  const PRUNED := Dir("/a/b", "/a/b", Some(5), None, false, Ends, [])
  const PARENT := Dir("/a", "/a", Some(9), None, false, Ends, [SubDir(false, false, PRUNED)])
  const SIBLING_ROWS: Rows := map[SIBLING := Row(1, 1, false)]
  const PRUNED_SIGNATURE: Signatures := map[(1, "/a/b") := Signature(5, 0, false)]
  const REFRESH := Config(1, 2, 8, true, PARENT, SIBLING_ROWS, PRUNED_SIGNATURE)

  lemma VisitsOfRefresh()
    ensures AllVisits(REFRESH) == multiset{Item(PARENT, 0), Item(PRUNED, 1)}
    ensures Pruned(REFRESH, Item(PRUNED, 1)) && !Pruned(REFRESH, Item(PARENT, 0))
  {
    assert "/a" != "/a/b" by { assert |"/a"| != |"/a/b"|; }
    assert Visits(REFRESH, Item(PRUNED, 1)) == multiset{Item(PRUNED, 1)};
    assert PARENT.entries[1..] == [];
    assert VisitsIn(REFRESH, PARENT.entries, 1) ==
      EntryVisits(REFRESH, PARENT.entries[0], 1) + VisitsIn(REFRESH, [], 1);
  }

  /** An Incremental scan of "/a" prunes "/a/b"; the repository "/a/bc", no longer there, stays live. */
  lemma SiblingStaysLiveRun() returns (s: Scan, es: seq<Event>)
    ensures Initial(REFRESH, s) && ValidRun(REFRESH, s, es) && Play(REFRESH, s, es).walk.main == Done(Some(false))
    ensures Live(Play(REFRESH, s, es).ledger.rows, 1, SIBLING) && Unaccounted(REFRESH, '/', SIBLING)
  {
    s, es := EveryScanCanComplete(REFRESH);
    VisitsOfRefresh();
    SiblingStrays();
    assert PrunedPath(REFRESH, AllVisits(REFRESH), "/a/b") by { assert Item(PRUNED, 1) in AllVisits(REFRESH); }
    forall p | PrunedPath(REFRESH, AllVisits(REFRESH), p)
      ensures p == "/a/b"
    {
    }
    UnaccountedRow(REFRESH, s, es, '/', SIBLING);
  }

  // ----- a listing that breaks part-way -----

  /** The signature of a directory without a repository, stored and met again with the same time,
      keeps everything below it unvisited, however the listing went then or would go now. */
  lemma SignedIsNotVisitedAgain(it: Item, d: Config, again: Item)
    requires it.dir.repo.None? && SignatureOf(it).Some? && again.dir.mtime == it.dir.mtime
    requires d.incremental && !Skipped(d, again)
    requires (d.base, again.dir.key) in d.stored && d.stored[(d.base, again.dir.key)] == SignatureOf(it).value.1
    ensures Pruned(d, again) && Visits(d, again) == multiset{again}
  {
  }

  lemma UnfoundGoesMissing(c: Config, t: Scan, k: RowKey)
    requires OlderGenerations(c) && !c.incremental && RowsOk(c, t) && FoundAll(c, t)
    requires t.walk.main == Done(Some(false)) && Live(c.start, c.base, k) && !Found(c, AllVisits(c), k)
    ensures k in t.ledger.rows && t.ledger.rows[k].missing
  {
    assert !TouchedRow(t.ledger, k);
  }

  /** Whatever the tree: a completed Full scan stores a signature under the key of every listed directory
      whose listing broke part-way, and marks missing every live row that it did not find, such as
      those of the part that was not listed. */
  lemma BrokenListingOutcome(c: Config, s: Scan, es: seq<Event>, it: Item, k: RowKey)
    requires OlderGenerations(c) && !c.incremental
    requires Initial(c, s) && ValidRun(c, s, es) && Play(c, s, es).walk.main == Done(Some(false))
    requires it in AllVisits(c) && Listed(c, it) && it.dir.mtime.Some? && BreaksPartWay(it.dir)
    ensures var l := Play(c, s, es).ledger;
      && (c.base, it.dir.key) in l.stored && !OnlyWholeListings(c, AllVisits(c), it.dir.key)
      && (Live(c.start, c.base, k) && !Found(c, AllVisits(c), k) ==> k in l.rows && l.rows[k].missing)
  {
    ListedIsStored(c, s, es, it);
    var t := Reached(c, s, es);
    CompletedFoundAll(c, t);
    if Live(c.start, c.base, k) && !Found(c, AllVisits(c), k) {
      UnfoundGoesMissing(c, t, k);
    }
  }

  const REPO := RowKey("/h/r/.git", "/h/r")
  const REPO_DIR := Dir("/h/r", "/h/r", Some(5), Some(REPO), false, Ends, [])

  /** The folder as the first scan sees it: an error ends the listing after one file. */
  const BROKEN := Dir("/h", "/h", Some(7), None, false, Breaks, [File])

  /** The same folder, unchanged, when it can be listed to its end. */
  const WHOLE := Dir("/h", "/h", Some(7), None, false, Ends, [File, SubDir(false, false, REPO_DIR)])

  const KNOWN := Db(map[1 := 1], map[REPO := Row(1, 1, false)], map[])
  const RESCAN := Config(1, 2, 8, false, BROKEN, KNOWN.rows, map[])

  lemma VisitsOfRescan()
    ensures AllVisits(RESCAN) == multiset{Item(BROKEN, 0)} && Listed(RESCAN, Item(BROKEN, 0))
    ensures !Found(RESCAN, AllVisits(RESCAN), REPO)
  {
    assert BROKEN.entries[1..] == [];
    assert VisitsIn(RESCAN, BROKEN.entries, 1) == EntryVisits(RESCAN, File, 1) + VisitsIn(RESCAN, [], 1);
  }

  /** What a completed Full scan of that folder leaves behind. */
  lemma RescanOutcome(s: Scan, es: seq<Event>)
    requires Initial(RESCAN, s) && ValidRun(RESCAN, s, es) && Play(RESCAN, s, es).walk.main == Done(Some(false))
    ensures var l := Play(RESCAN, s, es).ledger;
      && (1, "/h") in l.stored && l.stored[(1, "/h")] == SignatureOf(Item(BROKEN, 0)).value.1
      && !Live(l.rows, 1, REPO)
  {
    var it := Item(BROKEN, 0);
    VisitsOfRescan();
    assert it in AllVisits(RESCAN);
    BrokenListingOutcome(RESCAN, s, es, it, REPO);
    StoredSignaturesComeFromListings(RESCAN, s, es, (1, "/h"));
  }

  /** Neither is put right by the next Incremental scan, although the folder can be listed again and
      the repository is there: two completed scans, one after the other on the same database. */
  lemma BrokenListingIsNotRetried() returns (first: Turn, second: Turn)
    ensures first.Scanned? && first.c.root == BROKEN && Possible(KNOWN, first)
    ensures second.Scanned? && second.c.root == WHOLE && Possible(AfterTurn(KNOWN, first), second)
    ensures Play(first.c, first.s, first.es).walk.main == Done(Some(false))
    ensures Play(second.c, second.s, second.es).walk.main == Done(Some(false))
    ensures Live(KNOWN.rows, 1, REPO) && !Live(AfterTurn(KNOWN, first).rows, 1, REPO)
    ensures !Live(AfterTurn(AfterTurn(KNOWN, first), second).rows, 1, REPO)
  {
    var s, es := EveryScanCanComplete(RESCAN);
    assert SetUp(RESCAN, KNOWN) by { assert Cleared(KNOWN.signatures, 1) == map[]; }
    first := Scanned(RESCAN, s, es);
    RescanOutcome(s, es);
    var db := AfterTurn(KNOWN, first);
    var c := Config(1, 3, 8, true, WHOLE, db.rows, db.signatures);
    var s2, es2 := EveryScanCanComplete(c);
    second := Scanned(c, s2, es2);
    SignedIsNotVisitedAgain(Item(BROKEN, 0), c, Item(WHOLE, 0));
    TurnKeepsOrder(KNOWN, first);
    GenerationsStayOrdered(c, s2, es2, db.generations);
    assert !Found(c, AllVisits(c), REPO);
    LiveRowsAfterScan(c, s2, es2, REPO);
  }
}
