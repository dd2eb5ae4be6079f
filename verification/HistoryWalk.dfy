/**
  `HistoryProvider::walk` (src/core/git/HistoryProvider.cpp): which rows it hands to the graph
  builder, and on what schedule it publishes the growing snapshot. A publish copies every row so
  far, so the schedule decides what streaming costs.
*/
module HistoryWalk {
  import opened Basics

  const FIRST_CHUNK: nat := 256
  const MAX_CHUNK: nat := 131072
  const MAX_ROWS: nat := 2000000

  datatype Record = Record(oid: string, parents: seq<string>, time: nat)

  /** A line of rev-list output, with whether the first-chunk timer is due when it is handled. */
  datatype Line = Malformed | Parsed(record: Record, timerDue: bool)

  function Records(lines: seq<Line>): seq<Record> {
    if lines == [] then []
    else Records(lines[..|lines| - 1]) + if lines[|lines| - 1].Parsed? then [lines[|lines| - 1].record] else []
  }

  /** Linear mode: every row's parent is the row below it, except that the last keeps its own. */
  function Bridge(rs: seq<Record>): (r: seq<Record>)
    ensures |r| == |rs|
  {
    seq(|rs|, i requires 0 <= i < |rs| => if i + 1 < |rs| then rs[i].(parents := [rs[i + 1].oid]) else rs[i])
  }

  function Capped(rs: seq<Record>): seq<Record> {
    if |rs| <= MAX_ROWS then rs else rs[..MAX_ROWS]
  }

  function RowsOf(lines: seq<Line>, linear: bool): seq<Record> {
    Capped(if linear then Bridge(Records(lines)) else Records(lines))
  }

  // ----- the schedule -----

  function Increment(rows: nat): nat {
    var floor := if rows < FIRST_CHUNK then FIRST_CHUNK else rows;
    if floor < MAX_CHUNK then floor else MAX_CHUNK
  }

  /** The row count at which the next publish is due. */
  function NextAt(p: seq<nat>): nat {
    if p == [] then FIRST_CHUNK else p[|p| - 1] + Increment(p[|p| - 1])
  }

  predicate Due(p: seq<nat>, rows: nat, timerDue: bool) {
    rows >= NextAt(p) || (p == [] && timerDue && rows > 0)
  }

  function AfterRow(p: seq<nat>, rows: nat, timerDue: bool): seq<nat> {
    if Due(p, rows, timerDue) then p + [rows] else p
  }

  /** How many rows have been handed over after these lines, were there no limit. */
  function Offered(lines: seq<Line>, linear: bool): nat {
    var n := |Records(lines)|;
    if linear && n > 0 then n - 1 else n
  }

  /** The row counts at which a walk of these lines publishes before its end. */
  function Publishes(lines: seq<Line>, linear: bool): seq<nat> {
    if lines == [] then []
    else
      var before, line := Publishes(lines[..|lines| - 1], linear), lines[|lines| - 1];
      if line.Malformed? || Offered(lines, linear) > MAX_ROWS then before
      else AfterRow(before, Offered(lines, linear), line.timerDue)
  }

  /** What the sink has handed over for the records `rs`: all but the one it holds back. */
  ghost function Handed(rs: seq<Record>, linear: bool): seq<Record> {
    if !linear then rs else if rs == [] then [] else Bridge(rs)[..|rs| - 1]
  }

  /** The state that the sink lambda captures. */
  class Sink {
    const linear: bool
    var added: seq<Record>
    var published: seq<nat>
    var held: Option<Record>
    var next: nat

    ghost predicate RowsOk(rs: seq<Record>)
      reads this
    {
      && held == (if linear && rs != [] then Some(rs[|rs| - 1]) else None)
      && added == Handed(rs, linear) && |added| <= MAX_ROWS
    }

    constructor (linear: bool)
      ensures this.linear == linear && RowsOk([]) && published == [] && next == NextAt(published)
    {
      this.linear := linear;
      added, published, held, next := [], [], None, FIRST_CHUNK;
    }

    /** Hands one row to the builder; false when the builder is full. */
    method Add(row: Record) returns (ok: bool)
      requires |added| <= MAX_ROWS
      modifies this`added
      ensures ok == (|old(added)| < MAX_ROWS)
      ensures added == if ok then old(added) + [row] else old(added)
    {
      ok := |added| < MAX_ROWS;
      if ok {
        added := added + [row];
      }
    }

    method AddRecord(record: Record, ghost rs: seq<Record>) returns (ok: bool)
      requires RowsOk(rs)
      modifies this`added, this`held
      ensures ok ==> RowsOk(rs + [record])
      ensures !ok ==> added == old(added) && |added| == MAX_ROWS && (linear ==> rs != [])
    {
      ok := true;
      if linear {
        if held.Some? {
          BridgeGrows(rs, record);
          ok := Add(held.value.(parents := [record.oid]));
        }
        held := Some(record);
      } else {
        ok := Add(record);
      }
    }

    /** Publishes at the threshold, or for the first time on the timer, and sets the next threshold. */
    method PublishIfDue(timerDue: bool)
      requires next == NextAt(published)
      modifies this`published, this`next
      ensures published == AfterRow(old(published), |added|, timerDue) && next == NextAt(published)
    {
      var rows := |added|;
      var publish := rows >= next;
      if !publish && published == [] && timerDue && rows > 0 {
        publish := true;
      }
      if publish {
        published := published + [rows];
        next := rows + Increment(rows);
      }
    }

    /** One call of the sink; false stops the walk. */
    method Accept(line: Line, ghost rs: seq<Record>) returns (more: bool)
      requires RowsOk(rs) && next == NextAt(published)
      modifies this
      ensures next == NextAt(published)
      ensures more ==> RowsOk(if line.Parsed? then rs + [line.record] else rs)
      ensures published ==
        if more && line.Parsed? then AfterRow(old(published), |added|, line.timerDue) else old(published)
      ensures !more ==> line.Parsed? && added == Handed(rs, linear) && |added| == MAX_ROWS && (linear ==> rs != [])
    {
      more := true;
      if line.Parsed? {
        more := AddRecord(line.record, rs);
        if more {
          PublishIfDue(line.timerDue);
        }
      }
    }
  }

  /** Streams the lines into the sink until it stops. */
  method Stream(sink: Sink, lines: seq<Line>) returns (more: bool)
    requires sink.RowsOk([]) && sink.published == [] && sink.next == NextAt([])
    modifies sink
    ensures sink.published == Publishes(lines, sink.linear)
    ensures more ==> sink.RowsOk(Records(lines))
    ensures !more ==> sink.added == RowsOf(lines, sink.linear) && |sink.added| == MAX_ROWS
  {
    ghost var rs: seq<Record> := [];
    for i := 0 to |lines|
      invariant rs == Records(lines[..i]) && sink.published == Publishes(lines[..i], sink.linear)
      invariant sink.RowsOk(rs) && sink.next == NextAt(sink.published)
    {
      ghost var grown := if lines[i].Parsed? then rs + [lines[i].record] else rs;
      RecordsNext(lines, i);
      PublishesNext(lines, i, sink.linear);
      var goOn := sink.Accept(lines[i], rs);
      if !goOn {
        StopsForGood(lines, i, sink.linear);
        return false;
      }
      rs := grown;
    }
    assert lines[..|lines|] == lines;
    return true;
  }

  method WalkRows(lines: seq<Line>, linear: bool) returns (added: seq<Record>, published: seq<nat>)
    ensures added == RowsOf(lines, linear) && published == Publishes(lines, linear)
  {
    var sink := new Sink(linear);
    var more := Stream(sink, lines);
    if sink.held.Some? {
      if more {
        RowsAtEnd(Records(lines));
      }
      var _ := sink.Add(sink.held.value);
    }
    return sink.added, sink.published;
  }

  /** A whole walk. The rows are the records in order, cut at the builder's limit; in linear mode
      each is chained to the next, wherever the cut falls. The streaming publishes are those of the
      schedule, and the walk never ends past a publish that was due. */
  method Walk(lines: seq<Line>, linear: bool) returns (added: seq<Record>, published: seq<nat>)
    ensures added == RowsOf(lines, linear) && AreRows(added, Records(lines), linear)
    ensures linear ==> forall i :: 0 <= i < |added| - 1 ==> added[i].parents == [added[i + 1].oid]
    ensures published == Publishes(lines, linear) && Scheduled(published)
    ensures (published != [] ==> published[|published| - 1] <= |added|) && |added| <= NextAt(published)
  {
    added, published := WalkRows(lines, linear);
    RowsKeepRecords(lines, linear);
    RowsMeetSchedule(lines, linear);
  }

  lemma RowsMeetSchedule(lines: seq<Line>, linear: bool)
    ensures var p, rows := Publishes(lines, linear), |RowsOf(lines, linear)|;
      Scheduled(p) && (p != [] ==> p[|p| - 1] <= rows) && rows <= NextAt(p)
  {
    PublishesKeepSchedule(lines, linear);
    assert Rows(lines, linear) <= |RowsOf(lines, linear)| <= Rows(lines, linear) + 1;
  }

  /** Every row is its record, with the next record as its only parent in linear mode. */
  ghost predicate AreRows(rows: seq<Record>, rs: seq<Record>, linear: bool) {
    && |rows| == (if |rs| < 2000000 then |rs| else 2000000)
    && (forall i :: 0 <= i < |rows| ==>
          && rows[i].oid == rs[i].oid && rows[i].time == rs[i].time
          && rows[i].parents == if linear && i + 1 < |rs| then [rs[i + 1].oid] else rs[i].parents)
  }

  lemma RowsKeepRecords(lines: seq<Line>, linear: bool)
    ensures AreRows(RowsOf(lines, linear), Records(lines), linear)
    ensures var rows := RowsOf(lines, linear);
      linear ==> forall i :: 0 <= i < |rows| - 1 ==> rows[i].parents == [rows[i + 1].oid]
  {
    var rs, rows := Records(lines), RowsOf(lines, linear);
    forall i | 0 <= i < |rows| && linear
      ensures rows[i].parents == if i + 1 < |rs| then [rs[i + 1].oid] else rs[i].parents
      ensures rows[i].oid == rs[i].oid && rows[i].time == rs[i].time
    {
      assert rows[i] == Bridge(rs)[i];
    }
  }

  /** `at` lists the lines that parsed, in order, and `rs` their records. */
  ghost predicate PicksParsed(at: seq<int>, lines: seq<Line>, rs: seq<Record>) {
    && |at| == |rs| && (forall k, l :: 0 <= k < l < |at| ==> at[k] < at[l])
    && (forall k :: 0 <= k < |at| ==> 0 <= at[k] < |lines| && lines[at[k]].Parsed? && lines[at[k]].record == rs[k])
    && (forall i :: 0 <= i < |lines| && lines[i].Parsed? ==> i in at)
  }

  lemma PicksOneMore(at: seq<int>, lines: seq<Line>, rs: seq<Record>, line: Line)
    requires PicksParsed(at, lines, rs)
    ensures if line.Parsed? then PicksParsed(at + [|lines|], lines + [line], rs + [line.record])
            else PicksParsed(at, lines + [line], rs)
  {
    assert forall i :: 0 <= i < |lines| ==> (lines + [line])[i] == lines[i];
  }

  /** The records are those of the lines that parsed, in order. */
  lemma {:induction false} RecordsAreParsedLines(lines: seq<Line>) returns (at: seq<int>)
    ensures PicksParsed(at, lines, Records(lines))
  {
    at := [];
    if lines != [] {
      var n := |lines| - 1;
      at := RecordsAreParsedLines(lines[..n]);
      PicksOneMore(at, lines[..n], Records(lines[..n]), lines[n]);
      assert lines[..n] + [lines[n]] == lines;
      if lines[n].Parsed? {
        at := at + [n];
      }
    }
  }

  lemma RecordsNext(lines: seq<Line>, i: nat)
    requires i < |lines|
    ensures Records(lines[..i + 1]) ==
      if lines[i].Parsed? then Records(lines[..i]) + [lines[i].record] else Records(lines[..i])
  {
    assert lines[..i + 1][..i] == lines[..i];
  }

  lemma PublishesNext(lines: seq<Line>, i: nat, linear: bool)
    requires i < |lines|
    ensures Publishes(lines[..i + 1], linear) ==
      if lines[i].Malformed? || Offered(lines[..i + 1], linear) > MAX_ROWS then Publishes(lines[..i], linear)
      else AfterRow(Publishes(lines[..i], linear), Offered(lines[..i + 1], linear), lines[i].timerDue)
  {
    assert lines[..i + 1][..i] == lines[..i];
  }

  lemma BridgeGrows(rs: seq<Record>, r: Record)
    requires rs != []
    ensures Bridge(rs + [r])[..|rs|] == Bridge(rs)[..|rs| - 1] + [rs[|rs| - 1].(parents := [r.oid])]
  {
  }

  lemma {:induction false} RecordsGrow(lines: seq<Line>, i: nat)
    requires i <= |lines|
    ensures Records(lines[..i]) <= Records(lines)
    decreases |lines|
  {
    if i == |lines| {
      assert lines[..i] == lines;
    } else {
      RecordsGrow(lines[..|lines| - 1], i);
      assert lines[..|lines| - 1][..i] == lines[..i];
    }
  }

  /** When the builder is full, later records no longer matter. */
  lemma RowsWhenFull(rs: seq<Record>, r: Record, all: seq<Record>, linear: bool)
    requires rs + [r] <= all
    requires |Handed(rs, linear)| == MAX_ROWS && (linear ==> rs != [])
    ensures Handed(rs, linear) == Capped(if linear then Bridge(all) else all)
  {
    assert forall i :: 0 <= i <= |rs| ==> all[i] == (rs + [r])[i];
  }

  /** Nor is anything published any more. */
  lemma {:induction false} FullForGood(lines: seq<Line>, i: nat, linear: bool)
    requires i <= |lines| && Offered(lines[..i], linear) > MAX_ROWS
    ensures Publishes(lines, linear) == Publishes(lines[..i], linear)
    decreases |lines|
  {
    if i == |lines| {
      assert lines[..i] == lines;
    } else {
      RecordsGrow(lines, i);
      assert lines[..|lines| - 1][..i] == lines[..i];
      FullForGood(lines[..|lines| - 1], i, linear);
    }
  }

  lemma StopsForGood(lines: seq<Line>, i: nat, linear: bool)
    requires i < |lines| && lines[i].Parsed?
    requires var rs := Records(lines[..i]); |Handed(rs, linear)| == MAX_ROWS && (linear ==> rs != [])
    ensures Handed(Records(lines[..i]), linear) == RowsOf(lines, linear)
    ensures Publishes(lines, linear) == Publishes(lines[..i], linear)
  {
    RecordsNext(lines, i);
    RecordsGrow(lines, i + 1);
    RowsWhenFull(Records(lines[..i]), lines[i].record, Records(lines), linear);
    PublishesNext(lines, i, linear);
    FullForGood(lines, i + 1, linear);
  }

  lemma RowsAtEnd(rs: seq<Record>)
    requires rs != [] && |Handed(rs, true)| <= MAX_ROWS
    ensures Capped(Bridge(rs)) ==
      if |Handed(rs, true)| < MAX_ROWS then Handed(rs, true) + [rs[|rs| - 1]] else Handed(rs, true)
  {
  }

  // ----- no publish comes early, late or not at all -----

  /** A first publish no later than the first chunk, then each as far from the one before as the
      increment says. */
  predicate Scheduled(p: seq<nat>) {
    && (p != [] ==> 1 <= p[0] <= FIRST_CHUNK)
    && (forall i :: 0 <= i < |p| - 1 ==> p[i + 1] == p[i] + Increment(p[i]))
  }

  /** Rows handed over, within the limit. */
  function Rows(lines: seq<Line>, linear: bool): nat {
    if Offered(lines, linear) < MAX_ROWS then Offered(lines, linear) else MAX_ROWS
  }

  /** The publishes keep the schedule, none is ahead of the rows, and the next is not yet due. */
  predicate OnSchedule(p: seq<nat>, rows: nat) {
    Scheduled(p) && (p != [] ==> p[|p| - 1] <= rows) && rows < NextAt(p)
  }

  lemma ScheduledMore(p: seq<nat>, rows: nat)
    requires Scheduled(p) && (if p == [] then 1 <= rows <= FIRST_CHUNK else rows == NextAt(p))
    ensures Scheduled(p + [rows])
  {
    var q := p + [rows];
    assert forall i :: 0 <= i < |p| ==> q[i] == p[i];
  }

  lemma AfterRowOnSchedule(p: seq<nat>, before: nat, rows: nat, timerDue: bool)
    requires OnSchedule(p, before) && before <= rows <= before + 1
    ensures OnSchedule(AfterRow(p, rows, timerDue), rows)
  {
    if Due(p, rows, timerDue) {
      ScheduledMore(p, rows);
    }
  }

  lemma RowsNext(lines: seq<Line>, linear: bool)
    requires lines != []
    ensures var before, rows, line := Rows(lines[..|lines| - 1], linear), Rows(lines, linear), lines[|lines| - 1];
      && before <= rows <= before + 1
      && (line.Malformed? || Offered(lines, linear) > MAX_ROWS ==> rows == before)
  {
  }

  /** Every walk publishes on schedule, and the rows handed over never reach a publish that did not
      happen. */
  lemma {:induction false} PublishesKeepSchedule(lines: seq<Line>, linear: bool)
    ensures OnSchedule(Publishes(lines, linear), Rows(lines, linear))
  {
    if lines != [] {
      var n := |lines| - 1;
      var p, before := Publishes(lines[..n], linear), Rows(lines[..n], linear);
      PublishesKeepSchedule(lines[..n], linear);
      RowsNext(lines, linear);
      if lines[n].Parsed? && Offered(lines, linear) <= MAX_ROWS {
        AfterRowOnSchedule(p, before, Rows(lines, linear), lines[n].timerDue);
      }
    }
  }

  /** What was published stays published. */
  lemma {:induction false} PublishesGrow(lines: seq<Line>, i: nat, linear: bool)
    requires i <= |lines|
    ensures Publishes(lines[..i], linear) <= Publishes(lines, linear)
    decreases |lines|
  {
    if i == |lines| {
      assert lines[..i] == lines;
    } else {
      PublishesGrow(lines[..|lines| - 1], i, linear);
      assert lines[..|lines| - 1][..i] == lines[..i];
    }
  }

  /** A timer that is due at a line after which there are rows brings the first publish by that line. */
  lemma TimerBringsTheFirst(lines: seq<Line>, i: nat, linear: bool)
    requires i < |lines| && lines[i].Parsed? && lines[i].timerDue
    requires 0 < Offered(lines[..i + 1], linear) <= MAX_ROWS
    ensures var p := Publishes(lines, linear); p != [] && p[0] <= Offered(lines[..i + 1], linear)
  {
    PublishesNext(lines, i, linear);
    PublishesGrow(lines, i + 1, linear);
    var early := Publishes(lines[..i + 1], linear);
    PublishesKeepSchedule(lines[..i + 1], linear);
    PublishesRise(early, 0);
  }

  /** A first publish before the first chunk is full comes at a line at which the timer was due. */
  lemma {:induction false} EarlyPublishNeedsTimer(lines: seq<Line>, linear: bool) returns (i: nat)
    requires Publishes(lines, linear) != [] && Publishes(lines, linear)[0] < 256
    ensures i < |lines| && lines[i].Parsed? && lines[i].timerDue
    ensures Offered(lines[..i + 1], linear) == Publishes(lines, linear)[0]
    decreases |lines|
  {
    var n := |lines| - 1;
    var before := Publishes(lines[..n], linear);
    if before != [] {
      i := EarlyPublishNeedsTimer(lines[..n], linear);
      assert lines[..n][..i + 1] == lines[..i + 1];
    } else {
      i := n;
      assert lines[..n + 1] == lines;
    }
  }

  /** No publish point lies before the first. */
  lemma PublishesRise(p: seq<nat>, i: nat)
    requires Scheduled(p) && i < |p|
    ensures p[i] <= p[|p| - 1]
  {
    if i < |p| - 1 {
      PublishesIncrease(p, i, |p| - 1);
    }
  }

  /** Publish points strictly increase. */
  lemma {:induction false} PublishesIncrease(p: seq<nat>, i: nat, j: nat)
    requires Scheduled(p) && i < j < |p|
    ensures p[i] < p[j]
    decreases j
  {
    assert p[j - 1 + 1] == p[j - 1] + Increment(p[j - 1]);
    if i < j - 1 {
      PublishesIncrease(p, i, j - 1);
    }
  }

  // ----- what streaming costs -----

  /** Rows copied by these publishes. */
  function Cost(p: seq<nat>): nat {
    if p == [] then 0 else Cost(p[..|p| - 1]) + p[|p| - 1]
  }

  lemma CostNext(p: seq<nat>, i: nat)
    requires i < |p|
    ensures Cost(p[..i + 1]) == Cost(p[..i]) + p[i]
  {
    assert p[..i + 1][..i] == p[..i];
  }

  /** 1, 1, 2, 4, 8, ... */
  function Scale(i: nat): nat { if i <= 1 then 1 else 2 * Scale(i - 1) }

  lemma {:induction false} ScaleRises(i: nat, j: nat)
    requires i <= j
    ensures Scale(i) <= Scale(j)
  {
    if i < j {
      ScaleRises(i, j - 1);
    }
  }

  lemma ScaleValues()
    ensures Scale(9) == 256 && Scale(10) == 512
  {
    assert Scale(3) == 4;
    assert Scale(5) == 16;
    assert Scale(7) == 64;
  }

  /** The ten publishes after the first double, and the rows copied fall short of twice the last
      publish by one first chunk. */
  lemma {:induction false} DoublingPublishes(p: seq<nat>, i: nat)
    requires Scheduled(p) && 1 <= i <= 10 && i < |p|
    ensures 257 * Scale(i) <= p[i] <= 512 * Scale(i) && Cost(p[..i + 1]) == 2 * p[i] - FIRST_CHUNK
    decreases i
  {
    assert p[i - 1 + 1] == p[i - 1] + Increment(p[i - 1]);
    CostNext(p, i);
    if i == 1 {
      CostNext(p, 0);
    } else {
      DoublingPublishes(p, i - 1);
      ScaleRises(i - 1, 9);
      ScaleRises(0, i - 1);
      ScaleValues();
    }
  }

  /** From the twelfth publish on more than twice the last publish has been copied. */
  lemma {:induction false} LaterPublishes(p: seq<nat>, i: nat)
    requires Scheduled(p) && 11 <= i < |p|
    ensures p[i] > 2 * MAX_CHUNK && Cost(p[..i + 1]) > 2 * p[i]
    decreases i
  {
    assert p[i - 1 + 1] == p[i - 1] + Increment(p[i - 1]);
    CostNext(p, i);
    if i == 11 {
      DoublingPublishes(p, 10);
      ScaleValues();
    } else {
      LaterPublishes(p, i - 1);
    }
  }

  /** The rows copied up to the last publish r are at most 2r exactly while r is within two full
      chunks. */
  lemma CostWithinTwiceIff(p: seq<nat>)
    requires Scheduled(p) && p != []
    ensures Cost(p) <= 2 * p[|p| - 1] <==> p[|p| - 1] <= 2 * MAX_CHUNK
  {
    var i := |p| - 1;
    assert p[..i + 1] == p;
    if i == 0 {
      CostNext(p, 0);
    } else if i <= 10 {
      DoublingPublishes(p, i);
      ScaleRises(i, 10);
      ScaleValues();
    } else {
      LaterPublishes(p, i);
    }
  }

  /** Every walk of at least three full chunks copies more than that, whatever its timer does. */
  lemma LongWalksCopyMore(lines: seq<Line>, linear: bool)
    requires Rows(lines, linear) >= 3 * MAX_CHUNK
    ensures var p := Publishes(lines, linear); p != [] && Cost(p) > 2 * p[|p| - 1]
  {
    PublishesKeepSchedule(lines, linear);
    CostWithinTwiceIff(Publishes(lines, linear));
  }

  lemma {:induction false} PlainWalk(n: nat) returns (lines: seq<Line>)
    ensures |Records(lines)| == n
  {
    lines := [];
    if n > 0 {
      var before := PlainWalk(n - 1);
      lines := before + [Parsed(Record("", [], 0), false)];
      assert lines[..|lines| - 1] == before;
    }
  }

  /** Such walks exist: one of 393216 commits. */
  lemma LongWalkExists() returns (lines: seq<Line>)
    ensures var p := Publishes(lines, false); p != [] && Cost(p) > 2 * p[|p| - 1]
  {
    lines := PlainWalk(3 * MAX_CHUNK);
    LongWalksCopyMore(lines, false);
  }

  /** The increment either doubles or is the full chunk. */
  lemma IncrementCases(rows: nat)
    requires rows > 0
    ensures Increment(rows) <= MAX_CHUNK
    ensures rows <= MAX_CHUNK ==> Increment(rows) >= rows
    ensures rows > MAX_CHUNK ==> Increment(rows) == MAX_CHUNK
  {
  }

  lemma PublishesPositive(p: seq<nat>, i: nat)
    requires Scheduled(p) && i < |p|
    ensures p[i] > 0
  {
    if i > 0 {
      PublishesIncrease(p, 0, i);
    }
  }

  predicate Between(cost: nat, r: nat) {
    r * r <= 2 * MAX_CHUNK * cost <= 4 * MAX_CHUNK * r + r * r
  }

  lemma Square(a: nat, b: nat)
    ensures (a + b) * (a + b) == a * a + 2 * (b * a) + b * b
  {
  }

  lemma Times(a: nat, b: nat, c: nat)
    requires a <= b
    ensures a * c <= b * c
  {
  }

  /** The step with its products named: `ll`, `li` and `ii` for the squares and the mixed term. */
  lemma BetweenLinear(cost: nat, last: nat, inc: nat, ll: nat, li: nat, ii: nat)
    requires ll <= 2 * MAX_CHUNK * cost <= 4 * MAX_CHUNK * last + ll
    requires li <= MAX_CHUNK * last && ii <= MAX_CHUNK * inc
    requires inc >= last || li == MAX_CHUNK * last
    ensures ll + 2 * li + ii <= 2 * MAX_CHUNK * (cost + (last + inc)) <=
      4 * MAX_CHUNK * (last + inc) + (ll + 2 * li + ii)
  {
  }

  lemma BetweenStep(cost: nat, last: nat, inc: nat)
    requires Between(cost, last)
    requires inc <= MAX_CHUNK && (inc >= last || inc == MAX_CHUNK)
    ensures Between(cost + (last + inc), last + inc)
  {
    Square(last, inc);
    Times(inc, MAX_CHUNK, last);
    Times(inc, MAX_CHUNK, inc);
    BetweenLinear(cost, last, inc, last * last, inc * last, inc * inc);
  }

  lemma BetweenFirst(r: nat)
    requires r <= FIRST_CHUNK
    ensures Between(r, r)
  {
    Times(r, FIRST_CHUNK, r);
  }

  /** In general the rows copied up to the last publish r lie between r^2/(2*MAX_CHUNK) and
      2r + r^2/(2*MAX_CHUNK). */
  lemma {:induction false} CostBounds(p: seq<nat>)
    requires Scheduled(p) && p != []
    ensures Between(Cost(p), p[|p| - 1])
    decreases |p|
  {
    if |p| > 1 {
      var q := p[..|p| - 1];
      var last := q[|q| - 1];
      assert p[|p| - 2 + 1] == last + Increment(last);
      PublishesPositive(p, |p| - 2);
      IncrementCases(last);
      CostBounds(q);
      BetweenStep(Cost(q), last, Increment(last));
    } else {
      assert p[..0] == [];
      BetweenFirst(p[0]);
    }
  }

  /** So for every walk the cost is linear after all, because the builder takes no more than
      MAX_ROWS rows: at most ten times the last publish. */
  lemma CostIsLinearWithinTheLimit(lines: seq<Line>, linear: bool)
    ensures var p := Publishes(lines, linear); p != [] ==> Cost(p) <= 10 * p[|p| - 1]
  {
    var p := Publishes(lines, linear);
    PublishesKeepSchedule(lines, linear);
    if p != [] {
      CostBounds(p);
      LinearWithin(Cost(p), p[|p| - 1]);
    }
  }

  lemma LinearWithin(cost: nat, r: nat)
    requires Between(cost, r) && r <= MAX_ROWS
    ensures cost <= 10 * r
  {
    Times(r, MAX_ROWS, r);
  }
}
