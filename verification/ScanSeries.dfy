/** Scans one after another on the same database: of any folders, in any mode, however each ends. */
module ScanSeries {
  import opened Basics
  import opened RepoIndex
  import opened Scanner
  import opened ScannerRuns

  /** One call of `scan()`: a run up to any point, or one given up right after `beginScan`. */
  datatype Turn = Scanned(c: Config, s: Scan, es: seq<Event>) | GivenUp(base: int)

  ghost predicate Possible(db: Db, t: Turn) {
    t.Scanned? ==> SetUp(t.c, db) && Initial(t.c, t.s) && ValidRun(t.c, t.s, t.es)
  }

  /** The database the turn leaves behind. */
  ghost function AfterTurn(db: Db, t: Turn): Db
    requires Possible(db, t)
  {
    match t
    case GivenUp(base) => db.(generations := Begun(db.generations, base))
    case Scanned(c, s, es) =>
      var l := Play(c, s, es).ledger;
      Db(Begun(db.generations, c.base), l.rows, l.stored)
  }

  ghost predicate Series(db: Db, ts: seq<Turn>)
    decreases |ts|
  {
    ts == [] || (Possible(db, ts[0]) && Series(AfterTurn(db, ts[0]), ts[1..]))
  }

  ghost function AfterSeries(db: Db, ts: seq<Turn>): Db
    requires Series(db, ts)
    decreases |ts|
  {
    if ts == [] then db else AfterSeries(AfterTurn(db, ts[0]), ts[1..])
  }

  ghost predicate Ordered(db: Db) {
    IndexOrdered(db.rows, db.generations)
  }

  lemma TurnKeepsOrder(db: Db, t: Turn)
    requires Ordered(db) && Possible(db, t)
    ensures Ordered(AfterTurn(db, t))
  {
    if t.Scanned? {
      GenerationsStayOrdered(t.c, t.s, t.es, db.generations);
    }
  }

  /** Over any series of scans no row gets ahead of its folder's generation. */
  lemma {:induction false} SeriesKeepsOrder(db: Db, ts: seq<Turn>)
    requires Ordered(db) && Series(db, ts)
    ensures Ordered(AfterSeries(db, ts))
    decreases |ts|
  {
    if ts != [] {
      TurnKeepsOrder(db, ts[0]);
      SeriesKeepsOrder(AfterTurn(db, ts[0]), ts[1..]);
    }
  }

  /** So after any series that started with no rows, a scan that completes leaves exactly the rows it
      found live, and with them the live rows that it touched under a pruned directory. */
  lemma CompletedScanInSeries(db: Db, ts: seq<Turn>, c: Config, s: Scan, es: seq<Event>, k: RowKey)
    requires db.rows == map[] && Series(db, ts) && SetUp(c, AfterSeries(db, ts))
    requires Initial(c, s) && ValidRun(c, s, es) && Play(c, s, es).walk.main == Done(Some(false))
    ensures Live(Play(c, s, es).ledger.rows, c.base, k) <==>
      || Found(c, AllVisits(c), k)
      || (Live(c.start, c.base, k) && exists p :: PrunedPath(c, AllVisits(c), p) && Under(p, k))
  {
    SeriesKeepsOrder(db, ts);
    GenerationsStayOrdered(c, s, es, AfterSeries(db, ts).generations);
    LiveRowsAfterScan(c, s, es, k);
  }
}
