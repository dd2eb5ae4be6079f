/**
  What the numbers in a session mean, traced back to the events of the run: which read a ref snapshot
  comes from, how many requests had been made when it began, and which chunk an event announces.
*/
module SessionEvents {
  import opened Basics
  import opened SessionRefresh

  /** How many of these events are refresh requests. */
  ghost function Requests(es: seq<Event>): nat {
    if es == [] then 0 else Requests(es[..|es| - 1]) + if es[|es| - 1].Request? then 1 else 0
  }

  lemma {:induction false} PrefixRun(w: World, es: seq<Event>, n: nat)
    requires ValidRun(w, es) && n <= |es|
    ensures ValidRun(w, es[..n])
    ensures n < |es| ==>
      && Enabled(Play(w, es[..n]), es[n]) && ValidRun(w, es[..n + 1])
      && Play(w, es[..n + 1]) == Step(Play(w, es[..n]), es[n])
    decreases n
  {
    if n == 0 {
      if n < |es| {
        PlayOne(w, es[0], []);
        assert es[..1] == [es[0]] + [];
      }
    } else {
      PrefixRun(Step(w, es[0]), es[1..], n - 1);
      PlayOne(w, es[0], es[1..][..n - 1]);
      assert es[..n] == [es[0]] + es[1..][..n - 1];
      if n < |es| {
        PlayOne(w, es[0], es[1..][..n]);
        assert es[..n + 1] == [es[0]] + es[1..][..n];
      }
    }
  }

  /** The state after the first `n` events. */
  ghost function StateAt(w: World, es: seq<Event>, n: nat): World
    requires ValidRun(w, es) && n <= |es|
  {
    PrefixRun(w, es, n);
    Play(w, es[..n])
  }

  lemma NextState(w: World, es: seq<Event>, n: nat)
    requires ValidRun(w, es) && n < |es|
    ensures Enabled(StateAt(w, es, n), es[n]) && StateAt(w, es, n + 1) == Step(StateAt(w, es, n), es[n])
  {
    PrefixRun(w, es, n);
  }

  lemma StateAtEnds(w: World, es: seq<Event>)
    requires ValidRun(w, es)
    ensures StateAt(w, es, 0) == w && StateAt(w, es, |es|) == Play(w, es)
  {
    assert es[..|es|] == es && es[..0] == [];
  }

  // ----- one step -----

  lemma StepCounts(v: World, e: Event)
    requires Enabled(v, e)
    ensures Step(v, e).session.requestSeq == v.session.requestSeq + if e.Request? then 1 else 0
  {
  }

  lemma StepLoads(v: World, e: Event, g: nat)
    requires Enabled(v, e) && g < |Step(v, e).phases| && Step(v, e).phases[g].Loading?
    ensures (g < |v.phases| && v.phases[g] == Step(v, e).phases[g]) ||
      (e == StartLoad(g) && Step(v, e).phases[g].began == v.session.requestSeq)
  {
  }

  lemma StepRefs(v: World, e: Event)
    requires Enabled(v, e)
    ensures Step(v, e).session.refs == v.session.refs ||
      (e.ClaimRefs? && IsLoading(v, e.g) && Step(v, e).session.refs == Some(RefSnapshot(e.g, v.phases[e.g].began)))
  {
  }

  lemma StepChunks(v: World, e: Event, g: nat)
    requires Enabled(v, e) && g < |Step(v, e).phases| && Step(v, e).phases[g].ChunkPublished?
    ensures (g < |v.phases| && v.phases[g] == Step(v, e).phases[g]) ||
      (e == Chunk(g, Step(v, e).phases[g].complete) &&
       Step(v, e).session.graph == Some(GraphChunk(g, Step(v, e).phases[g].complete)))
  {
  }

  lemma StepDelivers(v: World, e: Event, d: Delivered)
    requires Enabled(v, e) && d in Step(v, e).delivered && d.GraphUpdated?
    ensures d in v.delivered ||
      (e == EmitGraph(d.dispatch) && d.dispatch < |v.phases| && v.phases[d.dispatch] == ChunkPublished(d.complete))
  {
  }

  // ----- back through the run -----

  lemma {:induction false} SequenceCountsRequests(w: World, es: seq<Event>, n: nat)
    requires Initial(w) && ValidRun(w, es) && n <= |es|
    ensures StateAt(w, es, n).session.requestSeq == Requests(es[..n])
    decreases n
  {
    StateAtEnds(w, es);
    if n > 0 {
      SequenceCountsRequests(w, es, n - 1);
      NextState(w, es, n - 1);
      StepCounts(StateAt(w, es, n - 1), es[n - 1]);
      assert es[..n][..n - 1] == es[..n - 1];
    }
  }

  /** A read that is under way began at a StartLoad, and knows how many requests there were then. */
  lemma {:induction false} ReadBegan(w: World, es: seq<Event>, n: nat, g: nat) returns (i: nat)
    requires Initial(w) && ValidRun(w, es) && n <= |es|
    requires g < |StateAt(w, es, n).phases| && StateAt(w, es, n).phases[g].Loading?
    ensures i < n && es[i] == StartLoad(g) && StateAt(w, es, n).phases[g].began == Requests(es[..i])
    decreases n
  {
    StateAtEnds(w, es);
    var v := StateAt(w, es, n - 1);
    NextState(w, es, n - 1);
    StepLoads(v, es[n - 1], g);
    if g < |v.phases| && v.phases[g] == StateAt(w, es, n).phases[g] {
      i := ReadBegan(w, es, n - 1, g);
    } else {
      i := n - 1;
      SequenceCountsRequests(w, es, n - 1);
    }
  }

  /** The refs held after `n` events were loaded by their dispatch's read, which knows how many requests
      had been made when it began. */
  lemma {:induction false} RefsWereRead(w: World, es: seq<Event>, n: nat) returns (i: nat)
    requires Initial(w) && ValidRun(w, es) && n <= |es| && StateAt(w, es, n).session.refs.Some?
    ensures var refs := StateAt(w, es, n).session.refs.value;
      i < n && es[i] == StartLoad(refs.dispatch) && refs.requestsAtStart == Requests(es[..i])
    decreases n
  {
    StateAtEnds(w, es);
    var v := StateAt(w, es, n - 1);
    NextState(w, es, n - 1);
    StepRefs(v, es[n - 1]);
    if StateAt(w, es, n).session.refs == v.session.refs {
      i := RefsWereRead(w, es, n - 1);
    } else {
      i := ReadBegan(w, es, n - 1, es[n - 1].g);
    }
  }

  /** Coverage in terms of the run: once REFS_UPDATED has been delivered with coversRequest >= n, the
      refs that `currentRefs()` returns at any later time were loaded by a read that began after the
      n-th request of the run. */
  lemma CoverageByEvents(w: World, before: seq<Event>, after: seq<Event>, d: Delivered, n: nat) returns (i: nat)
    requires Initial(w) && ValidRun(w, before) && ValidRun(Play(w, before), after)
    requires d in Play(w, before).delivered && d.RefsUpdated? && n <= d.covers
    ensures ValidRun(w, before + after)
    ensures var es, refs := before + after, Play(w, before + after).session.refs;
      refs.Some? && i < |es| && es[i] == StartLoad(refs.value.dispatch) && n <= Requests(es[..i])
  {
    CoveredRequestsAreVisible(w, before, after, d, n);
    PlayAppend(w, before, after);
    var es := before + after;
    StateAtEnds(w, es);
    i := RefsWereRead(w, es, |es|);
  }

  lemma {:induction false} ChunkWasPublished(w: World, es: seq<Event>, n: nat, g: nat) returns (i: nat)
    requires Initial(w) && ValidRun(w, es) && n <= |es|
    requires g < |StateAt(w, es, n).phases| && StateAt(w, es, n).phases[g].ChunkPublished?
    ensures var b := StateAt(w, es, n).phases[g].complete;
      i < n && es[i] == Chunk(g, b) && StateAt(w, es, i + 1).session.graph == Some(GraphChunk(g, b))
    decreases n
  {
    StateAtEnds(w, es);
    var v := StateAt(w, es, n - 1);
    NextState(w, es, n - 1);
    StepChunks(v, es[n - 1], g);
    if g < |v.phases| && v.phases[g] == StateAt(w, es, n).phases[g] {
      i := ChunkWasPublished(w, es, n - 1, g);
    } else {
      i := n - 1;
    }
  }

  /** Every delivered GRAPH_UPDATED announces a chunk that its dispatch published before, with the same
      `complete`. */
  lemma {:induction false} AnnouncedChunkWasPublished(w: World, es: seq<Event>, n: nat, d: Delivered) returns (i: nat)
    requires Initial(w) && ValidRun(w, es) && n <= |es| && d in StateAt(w, es, n).delivered && d.GraphUpdated?
    ensures i < n && es[i] == Chunk(d.dispatch, d.complete)
    ensures StateAt(w, es, i + 1).session.graph == Some(GraphChunk(d.dispatch, d.complete))
    decreases n
  {
    StateAtEnds(w, es);
    var v := StateAt(w, es, n - 1);
    NextState(w, es, n - 1);
    StepDelivers(v, es[n - 1], d);
    if d in v.delivered {
      i := AnnouncedChunkWasPublished(w, es, n - 1, d);
    } else {
      i := ChunkWasPublished(w, es, n - 1, d.dispatch);
    }
  }
}
