/**
  `ConflictBatch` (src/core/git/ConflictBatch.cpp): the union of every status scan taken during one
  merge, rebase or cherry-pick, with each path's state re-derived from the latest scan.
*/
module ConflictUnion {
  datatype Kind =
    | NoConflict | BothAdded | BothModified | BothDeleted
    | AddedByUs | DeletedByUs | AddedByThem | DeletedByThem

  /** One conflicted path of a scan. */
  datatype Candidate = Candidate(path: string, kind: Kind)

  datatype Entry = Entry(path: string, kind: Kind, resolved: bool)

  predicate Has(cs: seq<Candidate>, path: string) {
    exists i :: 0 <= i < |cs| && cs[i].path == path
  }

  predicate Tracked(es: seq<Entry>, path: string) {
    exists i :: 0 <= i < |es| && es[i].path == path
  }

  ghost function Names(es: seq<Entry>): seq<Candidate> {
    seq(|es|, i requires 0 <= i < |es| => Candidate(es[i].path, es[i].kind))
  }

  // ----- specification -----

  /** `known` and then whatever of `more` has a path not seen before. */
  ghost function Union(known: seq<Candidate>, more: seq<Candidate>): seq<Candidate>
    decreases |more|
  {
    if more == [] then known
    else Union(if Has(known, more[0].path) then known else known + [more[0]], more[1..])
  }

  /** These paths as entries, unresolved exactly when the scan reports them. */
  ghost function Stamped(cs: seq<Candidate>, scan: seq<Candidate>): seq<Entry> {
    seq(|cs|, i requires 0 <= i < |cs| => Entry(cs[i].path, cs[i].kind, !Has(scan, cs[i].path)))
  }

  ghost function Merged(es: seq<Entry>, scan: seq<Candidate>): seq<Entry> {
    Stamped(Union(Names(es), scan), scan)
  }

  predicate EveryoneResolved(es: seq<Entry>) {
    forall i :: 0 <= i < |es| ==> es[i].resolved
  }

  class ConflictBatch {
    const fingerprint: string
    var entries: seq<Entry>

    constructor ForOperation(fingerprint: string)
      ensures this.fingerprint == fingerprint && entries == []
    {
      this.fingerprint, entries := fingerprint, [];
    }

    constructor Restore(fingerprint: string, saved: seq<Entry>)
      ensures this.fingerprint == fingerprint && entries == saved
    {
      this.fingerprint, entries := fingerprint, saved;
    }

    method Merge(conflicted: seq<Candidate>)
      modifies this`entries
      ensures entries == Merged(old(entries), conflicted)
    {
      ghost var names := Names(entries);
      for i := 0 to |entries|
        invariant |entries| == |names| && Names(entries) == names
        invariant forall j :: 0 <= j < i ==> entries[j].resolved == !Has(conflicted, entries[j].path)
      {
        entries := entries[i := entries[i].(resolved := !Has(conflicted, entries[i].path))];
      }
      assert conflicted[0..] == conflicted;
      for k := 0 to |conflicted|
        invariant Union(Names(entries), conflicted[k..]) == Union(names, conflicted)
        invariant entries == Stamped(Names(entries), conflicted)
      {
        assert conflicted[k..][1..] == conflicted[k + 1..];
        var c := conflicted[k];
        TrackedByName(entries, c.path);
        if !Tracked(entries, c.path) {
          NamesAppend(entries, c);
          entries := entries + [Entry(c.path, c.kind, false)];
        }
      }
    }

    method ResolvedCount() returns (n: nat)
      ensures n == |set i | 0 <= i < |entries| && entries[i].resolved|
      ensures n <= |entries| && (n == |entries| <==> EveryoneResolved(entries))
    {
      n := 0;
      ghost var counted := {};
      for i := 0 to |entries|
        invariant counted == (set j | 0 <= j < i && entries[j].resolved) && n == |counted| <= i
        invariant n == i <==> forall j :: 0 <= j < i ==> entries[j].resolved
      {
        if entries[i].resolved {
          counted := counted + {i};
          n := n + 1;
        }
      }
    }

    method AllResolved() returns (all: bool)
      ensures all <==> entries != [] && EveryoneResolved(entries)
    {
      var n := ResolvedCount();
      return entries != [] && n == |entries|;
    }
  }

  lemma TrackedByName(es: seq<Entry>, path: string)
    ensures Tracked(es, path) <==> Has(Names(es), path)
  {
    if Tracked(es, path) {
      var i :| 0 <= i < |es| && es[i].path == path;
      assert Names(es)[i].path == path;
    }
  }

  lemma NamesAppend(es: seq<Entry>, c: Candidate)
    ensures Names(es + [Entry(c.path, c.kind, false)]) == Names(es) + [c]
  {
  }

  // ----- every run of scans -----

  ghost function Flat(scans: seq<seq<Candidate>>): seq<Candidate> {
    if scans == [] then [] else Flat(scans[..|scans| - 1]) + scans[|scans| - 1]
  }

  /** The entries after merging the scans in order. */
  ghost function AfterScans(es: seq<Entry>, scans: seq<seq<Candidate>>): seq<Entry> {
    if scans == [] then es else Merged(AfterScans(es, scans[..|scans| - 1]), scans[|scans| - 1])
  }

  lemma {:induction false} UnionTwice(known: seq<Candidate>, a: seq<Candidate>, b: seq<Candidate>)
    ensures Union(Union(known, a), b) == Union(known, a + b)
    decreases |a|
  {
    if a == [] {
      assert a + b == b;
    } else {
      assert (a + b)[1..] == a[1..] + b;
      UnionTwice(if Has(known, a[0].path) then known else known + [a[0]], a[1..], b);
    }
  }

  lemma NamesOfStamped(cs: seq<Candidate>, scan: seq<Candidate>)
    ensures Names(Stamped(cs, scan)) == cs
  {
  }

  /** From any start, restored batches included: the entries are the union of the start and all
      scans in order of first appearance, and the last scan alone decides every state. */
  lemma {:induction false} EntriesAfterScans(es: seq<Entry>, scans: seq<seq<Candidate>>)
    requires scans != []
    ensures AfterScans(es, scans) == Stamped(Union(Names(es), Flat(scans)), scans[|scans| - 1])
    decreases |scans|
  {
    var before, last := scans[..|scans| - 1], scans[|scans| - 1];
    UnionTwice(Names(es), Flat(before), last);
    if before != [] {
      EntriesAfterScans(es, before);
      NamesOfStamped(Union(Names(es), Flat(before)), before[|before| - 1]);
    }
  }

  // ----- what the union is -----

  /** Position `i` is where its path is seen for the first time. */
  ghost predicate First(cs: seq<Candidate>, i: int) {
    0 <= i < |cs| && forall j :: 0 <= j < i ==> cs[j].path != cs[i].path
  }

  ghost predicate Increasing(at: seq<int>) {
    forall k, l :: 0 <= k < l < |at| ==> at[k] < at[l]
  }

  ghost predicate Picks(at: seq<int>, cs: seq<Candidate>, picked: seq<Candidate>) {
    && |at| == |picked| && Increasing(at)
    && (forall k :: 0 <= k < |at| ==> First(cs, at[k]) && picked[k] == cs[at[k]])
    && (forall i :: First(cs, i) ==> i in at)
  }

  lemma FirstHas(cs: seq<Candidate>, at: seq<int>, picked: seq<Candidate>, path: string)
    requires Picks(at, cs, picked)
    ensures Has(picked, path) <==> Has(cs, path)
  {
    if Has(picked, path) {
      var k :| 0 <= k < |picked| && picked[k].path == path;
      assert cs[at[k]].path == path;
    }
    if Has(cs, path) {
      var i := FirstOf(cs, path);
      var k :| 0 <= k < |at| && at[k] == i;
      assert picked[k].path == path;
    }
  }

  lemma {:induction false} FirstOf(cs: seq<Candidate>, path: string) returns (i: int)
    requires Has(cs, path)
    ensures First(cs, i) && cs[i].path == path
    decreases |cs|
  {
    var n := |cs| - 1;
    if Has(cs[..n], path) {
      i := FirstOf(cs[..n], path);
    } else {
      i :| 0 <= i < |cs| && cs[i].path == path;
      assert forall j :: 0 <= j < n ==> cs[..n][j] == cs[j];
    }
  }

  lemma PicksMore(cs: seq<Candidate>, at: seq<int>, picked: seq<Candidate>, c: Candidate)
    returns (at': seq<int>)
    requires Picks(at, cs, picked)
    ensures Picks(at', cs + [c], Union(picked, [c]))
  {
    FirstHas(cs, at, picked, c.path);
    assert [c][1..] == [];
    at' := if Has(cs, c.path) then at else at + [|cs|];
    FirstsOfMore(cs, c);
  }

  lemma FirstsOfMore(cs: seq<Candidate>, c: Candidate)
    ensures forall i :: First(cs + [c], i) <==> First(cs, i) || (i == |cs| && !Has(cs, c.path))
  {
    assert forall i :: 0 <= i < |cs| ==> (cs + [c])[i] == cs[i];
  }

  /** The union of a fresh batch keeps exactly the first candidate of every path, in order. */
  lemma {:induction false} UnionIsFirstAppearances(cs: seq<Candidate>) returns (at: seq<int>)
    ensures Picks(at, cs, Union([], cs))
    decreases |cs|
  {
    if cs == [] {
      at := [];
    } else {
      var n := |cs| - 1;
      at := UnionIsFirstAppearances(cs[..n]);
      at := PicksMore(cs[..n], at, Union([], cs[..n]), cs[n]);
      assert cs[..n] + [cs[n]] == cs;
      UnionTwice([], cs[..n], [cs[n]]);
    }
  }

  lemma {:induction false} FlatHas(scans: seq<seq<Candidate>>)
    ensures Flat(scans) == [] <==> forall i :: 0 <= i < |scans| ==> scans[i] == []
  {
    if scans != [] {
      FlatHas(scans[..|scans| - 1]);
      assert forall i :: 0 <= i < |scans| - 1 ==> scans[..|scans| - 1][i] == scans[i];
    }
  }

  /** In a fresh batch everything is resolved exactly when some scan had a conflict and the last one
      had none. */
  lemma AllResolvedIff(scans: seq<seq<Candidate>>)
    ensures var es := AfterScans([], scans);
      es != [] && EveryoneResolved(es) <==>
        (exists i :: 0 <= i < |scans| && scans[i] != []) && scans[|scans| - 1] == []
  {
    if scans != [] {
      var last, cs := scans[|scans| - 1], Flat(scans);
      EntriesAfterScans([], scans);
      assert Names([]) == [];
      var at := UnionIsFirstAppearances(cs);
      FlatHas(scans);
      if last != [] {
        LastIsUnresolved(scans, at);
      } else if cs != [] {
        assert First(cs, 0);
      }
    }
  }

  lemma LastIsUnresolved(scans: seq<seq<Candidate>>, at: seq<int>)
    requires scans != [] && scans[|scans| - 1] != []
    requires Picks(at, Flat(scans), Union([], Flat(scans)))
    ensures !EveryoneResolved(Stamped(Union([], Flat(scans)), scans[|scans| - 1]))
  {
    var last, cs := scans[|scans| - 1], Flat(scans);
    var path := last[0].path;
    assert cs[|cs| - |last|].path == path;
    FirstHas(cs, at, Union([], cs), path);
    var k :| 0 <= k < |Union([], cs)| && Union([], cs)[k].path == path;
    assert !Stamped(Union([], cs), last)[k].resolved;
  }

  /** A fresh batch after any scans, entry by entry: each is the first candidate of its path over all
      scans, in order, and unresolved if and only if the last scan reports its path. */
  lemma EntriesByScans(scans: seq<seq<Candidate>>) returns (at: seq<int>)
    requires scans != []
    ensures var es, cs, last := AfterScans([], scans), Flat(scans), scans[|scans| - 1];
      && |es| == |at| && (forall k, l :: 0 <= k < l < |at| ==> at[k] < at[l])
      && (forall i :: 0 <= i < |cs| && (forall j :: 0 <= j < i ==> cs[j].path != cs[i].path) ==> i in at)
      && (forall k :: 0 <= k < |at| ==>
            && 0 <= at[k] < |cs| && (forall j :: 0 <= j < at[k] ==> cs[j].path != cs[at[k]].path)
            && es[k].path == cs[at[k]].path && es[k].kind == cs[at[k]].kind
            && (!es[k].resolved <==> exists j :: 0 <= j < |last| && last[j].path == es[k].path))
  {
    EntriesAfterScans([], scans);
    assert Names([]) == [];
    at := UnionIsFirstAppearances(Flat(scans));
    var cs := Flat(scans);
    forall k | 0 <= k < |at|
      ensures First(cs, at[k])
    {
    }
    forall i | 0 <= i < |cs| && forall j :: 0 <= j < i ==> cs[j].path != cs[i].path
      ensures i in at
    {
      assert First(cs, i);
    }
  }

  /** Restored entries too are re-derived by the next scan, whatever state they were saved in. */
  lemma StatesByLastScan(es: seq<Entry>, scans: seq<seq<Candidate>>, k: nat)
    requires scans != [] && k < |AfterScans(es, scans)|
    ensures var e, last := AfterScans(es, scans)[k], scans[|scans| - 1];
      !e.resolved <==> exists j :: 0 <= j < |last| && last[j].path == e.path
  {
    EntriesAfterScans(es, scans);
  }
}
