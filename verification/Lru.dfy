/**
  `LruByBytes` (src/core/git/DiffService.h): a recency list, a map and a running total, against a
  cache that is simply the list of its entries, most recent first.
*/
module Lru {
  import opened Basics

  datatype Slot<K, V> = Slot(key: K, value: V, bytes: nat)

  /** The specification: a cache is its entries, most recently used first. */
  type Cache<K, V> = seq<Slot<K, V>>

  function Sum<K, V>(c: Cache<K, V>): nat {
    if c == [] then 0 else Sum(c[..|c| - 1]) + c[|c| - 1].bytes
  }

  function Lookup<K(==), V>(c: Cache<K, V>, k: K): Option<Slot<K, V>> {
    if c == [] then None else if c[0].key == k then Some(c[0]) else Lookup(c[1..], k)
  }

  function Drop<K(==), V>(c: Cache<K, V>, k: K): Cache<K, V> {
    if c == [] then [] else if c[0].key == k then c[1..] else [c[0]] + Drop(c[1..], k)
  }

  function Trim<K, V>(c: Cache<K, V>, budget: nat): Cache<K, V> {
    if Sum(c) <= budget then c else Trim(c[..|c| - 1], budget)
  }

  function AfterGet<K(==), V>(c: Cache<K, V>, k: K): Cache<K, V> {
    if Lookup(c, k).Some? then [Lookup(c, k).value] + Drop(c, k) else c
  }

  function AfterPut<K(==), V>(c: Cache<K, V>, k: K, v: V, bytes: nat, budget: nat): Cache<K, V> {
    Trim([Slot(k, v, bytes)] + Drop(c, k), budget)
  }

  ghost predicate DistinctKeys<K, V>(c: Cache<K, V>) {
    forall i, j :: 0 <= i < j < |c| ==> c[i].key != c[j].key
  }

  /** What an eviction keeps: a prefix of the most recent entries that fits, and no longer prefix
      does. */
  lemma {:induction false} TrimIsLongestFittingPrefix<K, V>(c: Cache<K, V>, budget: nat)
    ensures Trim(c, budget) <= c && Sum(Trim(c, budget)) <= budget
    ensures forall n :: |Trim(c, budget)| < n <= |c| ==> Sum(c[..n]) > budget
  {
    if Sum(c) > budget {
      var most := c[..|c| - 1];
      TrimIsLongestFittingPrefix(most, budget);
      forall n | |Trim(c, budget)| < n <= |c|
        ensures Sum(c[..n]) > budget
      {
        if n == |c| {
          assert c[..n] == c;
        } else {
          assert c[..n] == most[..n];
        }
      }
    }
  }

  lemma {:induction false} SumAppend<K, V>(a: Cache<K, V>, b: Cache<K, V>)
    ensures Sum(a + b) == Sum(a) + Sum(b)
    decreases |b|
  {
    if b == [] {
      assert a + b == a;
    } else {
      SumAppend(a, b[..|b| - 1]);
      assert (a + b)[..|a + b| - 1] == a + b[..|b| - 1];
    }
  }

  lemma SumOne<K, V>(s: Slot<K, V>)
    ensures Sum([s]) == s.bytes
  {
    assert [s][..0] == [];
  }

  /** A sequence without its i-th element. */
  function Cut<T>(s: seq<T>, i: nat): (r: seq<T>)
    requires i < |s|
    ensures |r| == |s| - 1
    ensures forall j :: 0 <= j < |r| ==> r[j] == s[if j < i then j else j + 1]
  {
    s[..i] + s[i + 1..]
  }

  lemma CutHead<T>(s: seq<T>)
    requires s != []
    ensures Cut(s, 0) == s[1..]
  {
  }

  lemma CutLater<T>(s: seq<T>, i: nat)
    requires 0 < i < |s|
    ensures Cut(s, i) == [s[0]] + Cut(s[1..], i - 1)
  {
  }

  /** Where `Lookup` and `Drop` act. */
  lemma {:induction false} DropAt<K, V>(c: Cache<K, V>, i: nat)
    requires DistinctKeys(c) && i < |c|
    ensures Lookup(c, c[i].key) == Some(c[i]) && Drop(c, c[i].key) == Cut(c, i)
  {
    if i > 0 {
      assert c[0].key != c[i].key;
      DropAt(c[1..], i - 1);
      CutLater(c, i);
    } else {
      CutHead(c);
    }
  }

  lemma {:induction false} SumWithout<K, V>(c: Cache<K, V>, i: nat)
    requires i < |c|
    ensures Sum(Cut(c, i)) + c[i].bytes == Sum(c)
    decreases |c|
  {
    var n := |c| - 1;
    if i == n {
      assert Cut(c, i) == c[..n];
    } else {
      SumWithout(c[..n], i);
      assert Cut(c, i)[..n - 1] == Cut(c[..n], i);
    }
  }

  /** Moving an entry to the front changes neither the entries nor their total. */
  function Front<T>(s: seq<T>, i: nat): seq<T>
    requires i < |s|
  {
    [s[i]] + Cut(s, i)
  }

  lemma FrontSum<K, V>(c: Cache<K, V>, i: nat)
    requires i < |c|
    ensures Sum(Front(c, i)) == Sum(c)
  {
    SumWithout(c, i);
    SumAppend([c[i]], Cut(c, i));
    SumOne(c[i]);
  }

  lemma FrontEntries<K, V>(c: Cache<K, V>, i: nat)
    requires i < |c| && DistinctKeys(c)
    ensures DistinctKeys(Front(c, i)) && forall s :: s in Front(c, i) ==> s in c
  {
    var f := Front(c, i);
    forall j | 0 <= j < |f|
      ensures f[j] in c
    {
      assert f[j] == c[if j == 0 then i else if j <= i then j - 1 else j];
    }
  }

  lemma {:induction false} DropAbsent<K, V>(c: Cache<K, V>, k: K)
    requires forall i :: 0 <= i < |c| ==> c[i].key != k
    ensures Lookup(c, k) == None && Drop(c, k) == c
  {
    if c != [] {
      DropAbsent(c[1..], k);
      assert [c[0]] + c[1..] == c;
    }
  }

  // ----- the implementation -----

  datatype Entry<V> = Entry(value: V, bytes: nat)

  ghost function Slots<K, V>(order: seq<K>, m: map<K, Entry<V>>): (c: Cache<K, V>)
    requires forall k :: k in order ==> k in m
    ensures |c| == |order|
    ensures forall i :: 0 <= i < |c| ==> c[i] == Slot(order[i], m[order[i]].value, m[order[i]].bytes)
  {
    seq(|order|, i requires 0 <= i < |order| => Slot(order[i], m[order[i]].value, m[order[i]].bytes))
  }

  ghost predicate Distinct<K>(s: seq<K>) {
    forall i, j :: 0 <= i < j < |s| ==> s[i] != s[j]
  }

  lemma CutKeys<K>(s: seq<K>, i: nat)
    requires Distinct(s) && i < |s|
    ensures Distinct(Cut(s, i)) && forall k :: k in Cut(s, i) <==> k in s && k != s[i]
  {
    forall k | k in s && k != s[i]
      ensures k in Cut(s, i)
    {
      var j :| 0 <= j < |s| && s[j] == k;
      assert Cut(s, i)[if j < i then j else j - 1] == k;
    }
  }

  lemma SlotsCut<K, V>(order: seq<K>, m: map<K, Entry<V>>, n: map<K, Entry<V>>, i: nat)
    requires i < |order| && forall k :: k in order ==> k in m
    requires forall k :: k in Cut(order, i) ==> k in n && k in m && n[k] == m[k]
    ensures Slots(Cut(order, i), n) == Cut(Slots(order, m), i)
  {
    forall j | 0 <= j < |order| - 1
      ensures Slots(Cut(order, i), n)[j] == Cut(Slots(order, m), i)[j]
    {
      assert Cut(order, i)[j] in Cut(order, i);
    }
  }

  lemma SlotsFront<K, V>(order: seq<K>, m: map<K, Entry<V>>, k: K, e: Entry<V>)
    requires k !in order && forall j :: j in order ==> j in m
    ensures Slots([k] + order, m[k := e]) == [Slot(k, e.value, e.bytes)] + Slots(order, m)
  {
  }

  lemma FrontKeys<K>(s: seq<K>, i: nat)
    requires Distinct(s) && i < |s|
    ensures Distinct(Front(s, i)) && forall k :: k in Front(s, i) <==> k in s
  {
    CutKeys(s, i);
  }

  lemma SlotsMoved<K, V>(order: seq<K>, m: map<K, Entry<V>>, i: nat)
    requires i < |order| && forall k :: k in order ==> k in m
    requires forall k :: k in Front(order, i) ==> k in m
    ensures Slots(Front(order, i), m) == Front(Slots(order, m), i)
  {
    assert forall j :: 0 < j < |order| ==> Front(order, i)[j] == Cut(order, i)[j - 1];
  }

  /** A new front entry's effect on the total. */
  lemma SumFront<K, V>(c: Cache<K, V>, k: K, v: V, bytes: nat)
    ensures Sum([Slot(k, v, bytes)] + c) == bytes + Sum(c)
  {
    SumAppend([Slot(k, v, bytes)], c);
    SumOne(Slot(k, v, bytes));
  }

  class LruByBytes<K(==, !new), V> {
    const budget: nat
    var used: nat
    var order: seq<K>
    var table: map<K, Entry<V>>

    /** The list and the map hold the same keys once each, and the total is the sum of sizes. */
    ghost predicate Consistent()
      reads this
    {
      && Distinct(order)
      && (forall k :: k in order <==> k in table)
      && used == Sum(Slots(order, table))
    }

    ghost predicate Valid()
      reads this
    {
      Consistent() && used <= budget
    }

    ghost function View(): Cache<K, V>
      requires Consistent()
      reads this
    {
      Slots(order, table)
    }

    constructor (budget: nat)
      ensures Valid() && View() == [] && this.budget == budget
    {
      this.budget, used, order, table := budget, 0, [], map[];
    }

    /** `list::splice` to the front, or `erase`: the list without its one occurrence of `k`. */
    method Unlink(k: K) returns (i: nat)
      requires k in order && Distinct(order)
      modifies this`order
      ensures i < |old(order)| && old(order)[i] == k && order == Cut(old(order), i)
    {
      i := 0;
      while order[i] != k
        invariant i < |order| && k in order[i..]
        invariant order == old(order)
        decreases |order| - i
      {
        i := i + 1;
      }
      order := Cut(order, i);
    }

    method Get(k: K) returns (v: Option<V>)
      requires Valid()
      modifies this
      ensures Valid()
      ensures View() == AfterGet(old(View()), k)
      ensures v == if Lookup(old(View()), k).Some? then Some(Lookup(old(View()), k).value.value) else None
    {
      ghost var c := View();
      if k !in table {
        DropAbsent(c, k);
        return None;
      }
      var i := Unlink(k);
      DropAt(c, i);
      order := [k] + order;
      FrontKeys(old(order), i);
      SlotsMoved(old(order), table, i);
      FrontSum(c, i);
      return Some(table[k].value);
    }

    /** Removes an entry that is already there, as `put` does before it inserts. */
    method Remove(k: K)
      requires Valid() && k in table
      modifies this
      ensures Valid() && k !in table && View() == Drop(old(View()), k)
    {
      ghost var c := View();
      var i := Unlink(k);
      DropAt(c, i);
      SumWithout(c, i);
      CutKeys(old(order), i);
      used := used - table[k].bytes;
      table := table - {k};
      SlotsCut(old(order), old(table), table, i);
    }

    method Evict()
      requires Consistent()
      modifies this
      ensures Valid() && View() == Trim(old(View()), budget)
    {
      while used > budget && order != []
        invariant Consistent()
        invariant Trim(View(), budget) == Trim(old(View()), budget)
        decreases |order|
      {
        EvictOldest();
      }
    }

    method EvictOldest()
      requires Consistent() && order != []
      modifies this
      ensures Consistent() && View() == old(View())[..|old(View())| - 1] && |order| == |old(order)| - 1
    {
      ghost var c := View();
      var oldest := order[|order| - 1];
      var bytes := table[oldest].bytes;
      order := order[..|order| - 1];
      table := table - {oldest};
      assert Slots(order, table) == c[..|c| - 1];
      used := used - bytes;
    }

    method Put(k: K, v: V, bytes: nat)
      requires Valid()
      modifies this
      ensures Valid()
      ensures View() == AfterPut(old(View()), k, v, bytes, budget)
    {
      ghost var c := View();
      if k in table {
        Remove(k);
      } else {
        DropAbsent(c, k);
      }
      Insert(k, v, bytes);
      Evict();
    }

    method Insert(k: K, v: V, bytes: nat)
      requires Consistent() && k !in table
      modifies this
      ensures Consistent() && View() == [Slot(k, v, bytes)] + old(View())
    {
      SlotsFront(order, table, k, Entry(v, bytes));
      SumFront(View(), k, v, bytes);
      order := [k] + order;
      table := table[k := Entry(v, bytes)];
      used := used + bytes;
    }

    method Clear()
      requires Valid()
      modifies this
      ensures Valid() && View() == []
    {
      order, table, used := [], map[], 0;
    }
  }

  // ----- any run of operations -----

  datatype Op<K, V> = Get(key: K) | Put(key: K, value: V, bytes: nat) | Clear

  function After<K(==), V>(ops: seq<Op<K, V>>, budget: nat): Cache<K, V> {
    if ops == [] then []
    else
      var c := After(ops[..|ops| - 1], budget);
      match ops[|ops| - 1]
      case Get(k) => AfterGet(c, k)
      case Put(k, v, bytes) => AfterPut(c, k, v, bytes, budget)
      case Clear => []
  }

  /** The last thing put under `k` since the last clear. */
  function LastPut<K(==), V>(ops: seq<Op<K, V>>, k: K): Option<Slot<K, V>> {
    if ops == [] then None
    else
      match ops[|ops| - 1]
      case Get(_) => LastPut(ops[..|ops| - 1], k)
      case Put(j, v, bytes) => if j == k then Some(Slot(k, v, bytes)) else LastPut(ops[..|ops| - 1], k)
      case Clear => None
  }

  lemma GetKeepsEntries<K, V>(c: Cache<K, V>, k: K)
    requires DistinctKeys(c)
    ensures DistinctKeys(AfterGet(c, k)) && Sum(AfterGet(c, k)) == Sum(c)
    ensures forall s :: s in AfterGet(c, k) ==> s in c
  {
    if i :| 0 <= i < |c| && c[i].key == k {
      DropAt(c, i);
      assert AfterGet(c, k) == Front(c, i);
      FrontSum(c, i);
      FrontEntries(c, i);
    } else {
      DropAbsent(c, k);
    }
  }

  lemma DropKeepsOthers<K, V>(c: Cache<K, V>, k: K)
    requires DistinctKeys(c)
    ensures DistinctKeys(Drop(c, k)) && forall s :: s in Drop(c, k) ==> s in c && s.key != k
  {
    if i :| 0 <= i < |c| && c[i].key == k {
      DropAt(c, i);
    } else {
      DropAbsent(c, k);
    }
  }

  lemma PutKeepsOthers<K, V>(c: Cache<K, V>, k: K, v: V, bytes: nat, budget: nat)
    requires DistinctKeys(c)
    ensures DistinctKeys(AfterPut(c, k, v, bytes, budget)) && Sum(AfterPut(c, k, v, bytes, budget)) <= budget
    ensures forall s :: s in AfterPut(c, k, v, bytes, budget) ==> s == Slot(k, v, bytes) || (s in c && s.key != k)
  {
    var rest := Drop(c, k);
    DropKeepsOthers(c, k);
    var all := [Slot(k, v, bytes)] + rest;
    assert forall i :: 0 < i < |all| ==> all[i] == rest[i - 1];
    TrimIsLongestFittingPrefix(all, budget);
    var kept := Trim(all, budget);
    assert forall i :: 0 <= i < |kept| ==> kept[i] == all[i];
  }

  /** After any run of get, put and clear: within budget, one entry per key, and every entry is the
      last one put under its key, so that is all a get can return. */
  lemma {:induction false} CacheHoldsLastPuts<K, V>(ops: seq<Op<K, V>>, budget: nat)
    ensures var c := After(ops, budget);
      Sum(c) <= budget && DistinctKeys(c) && forall s :: s in c ==> LastPut(ops, s.key) == Some(s)
  {
    if ops != [] {
      CacheHoldsLastPuts(ops[..|ops| - 1], budget);
      var c := After(ops[..|ops| - 1], budget);
      match ops[|ops| - 1]
      case Get(k) => GetKeepsEntries(c, k);
      case Put(k, v, bytes) => PutKeepsOthers(c, k, v, bytes, budget);
      case Clear =>
    }
  }

  /** A put is remembered exactly when it fits, and a get then returns it. */
  lemma PutIsRememberedIff<K, V>(c: Cache<K, V>, k: K, v: V, bytes: nat, budget: nat)
    requires DistinctKeys(c)
    ensures Lookup(AfterPut(c, k, v, bytes, budget), k) == if bytes <= budget then Some(Slot(k, v, bytes)) else None
  {
    var all := [Slot(k, v, bytes)] + Drop(c, k);
    DropKeepsOthers(c, k);
    TrimIsLongestFittingPrefix(all, budget);
    var kept := Trim(all, budget);
    SumOne(all[0]);
    assert all[..1] == [all[0]];
    if bytes <= budget {
      assert kept[0] == all[0];
    } else if kept != [] {
      SumAtLeastFirst(kept);
      assert false;
    }
  }

  lemma {:induction false} SumAtLeastFirst<K, V>(c: Cache<K, V>)
    requires c != []
    ensures Sum(c) >= c[0].bytes
  {
    if |c| > 1 {
      SumAtLeastFirst(c[..|c| - 1]);
    }
  }

  /** When `k` was last got or put; -1 if never. */
  function LastUse<K(==), V>(ops: seq<Op<K, V>>, k: K): (n: int)
    ensures -1 <= n < |ops|
  {
    if ops == [] then -1
    else if !ops[|ops| - 1].Clear? && ops[|ops| - 1].key == k then |ops| - 1
    else LastUse(ops[..|ops| - 1], k)
  }

  ghost predicate ByRecency<K, V>(c: Cache<K, V>, ops: seq<Op<K, V>>) {
    forall i, j :: 0 <= i < j < |c| ==> LastUse(ops, c[i].key) > LastUse(ops, c[j].key)
  }

  lemma CutByRecency<K, V>(c: Cache<K, V>, ops: seq<Op<K, V>>, k: K)
    requires DistinctKeys(c) && ByRecency(c, ops)
    ensures ByRecency(Drop(c, k), ops)
  {
    if i :| 0 <= i < |c| && c[i].key == k {
      DropAt(c, i);
    } else {
      DropAbsent(c, k);
    }
  }

  /** An entry put in front by the newest operation leaves the list ordered. */
  lemma FrontByRecency<K, V>(rest: Cache<K, V>, s: Slot<K, V>, ops: seq<Op<K, V>>)
    requires ops != [] && !ops[|ops| - 1].Clear? && ops[|ops| - 1].key == s.key
    requires ByRecency(rest, ops[..|ops| - 1]) && forall x :: x in rest ==> x.key != s.key
    ensures ByRecency([s] + rest, ops)
  {
    forall i | 0 <= i < |rest|
      ensures LastUse(ops, rest[i].key) == LastUse(ops[..|ops| - 1], rest[i].key)
    {
      assert rest[i] in rest;
    }
  }

  /** The list is always in order of last use, so what an eviction drops was used before everything
      that it keeps. */
  lemma {:induction false} OrderIsRecency<K, V>(ops: seq<Op<K, V>>, budget: nat)
    ensures ByRecency(After(ops, budget), ops)
  {
    if ops != [] {
      var before := ops[..|ops| - 1];
      var c := After(before, budget);
      OrderIsRecency(before, budget);
      CacheHoldsLastPuts(before, budget);
      match ops[|ops| - 1]
      case Get(k) => GetByRecency(c, ops, k);
      case Put(k, v, bytes) =>
        DropKeepsOthers(c, k);
        CutByRecency(c, before, k);
        FrontByRecency(Drop(c, k), Slot(k, v, bytes), ops);
        TrimIsLongestFittingPrefix([Slot(k, v, bytes)] + Drop(c, k), budget);
      case Clear =>
    }
  }

  lemma GetByRecency<K, V>(c: Cache<K, V>, ops: seq<Op<K, V>>, k: K)
    requires ops != [] && ops[|ops| - 1] == Op<K, V>.Get(k)
    requires DistinctKeys(c) && ByRecency(c, ops[..|ops| - 1])
    ensures ByRecency(AfterGet(c, k), ops)
  {
    if i :| 0 <= i < |c| && c[i].key == k {
      DropAt(c, i);
      DropKeepsOthers(c, k);
      CutByRecency(c, ops[..|ops| - 1], k);
      FrontByRecency(Drop(c, k), c[i], ops);
    } else {
      DropAbsent(c, k);
    }
  }

  // ----- what a put keeps and a get finds, entry by entry -----

  /** How many of the first `n` entries have another key than `k`, and what they weigh together. */
  function Others<K(==), V>(c: Cache<K, V>, k: K, n: nat): nat
    requires n <= |c|
  {
    if n == 0 then 0 else Others(c, k, n - 1) + if c[n - 1].key != k then 1 else 0
  }

  function OthersBytes<K(==), V>(c: Cache<K, V>, k: K, n: nat): nat
    requires n <= |c|
  {
    if n == 0 then 0 else OthersBytes(c, k, n - 1) + if c[n - 1].key != k then c[n - 1].bytes else 0
  }

  lemma {:induction false} OthersWithout<K, V>(c: Cache<K, V>, k: K, n: nat)
    requires n <= |c| && forall i :: 0 <= i < |c| ==> c[i].key != k
    ensures Others(c, k, n) == n
  {
    if n > 0 {
      OthersWithout(c, k, n - 1);
    }
  }

  lemma {:induction false} OthersAround<K, V>(c: Cache<K, V>, m: nat, n: nat)
    requires DistinctKeys(c) && m < |c| && n <= |c|
    ensures Others(c, c[m].key, n) == if n <= m then n else n - 1
  {
    if n > 0 {
      OthersAround(c, m, n - 1);
    }
  }

  lemma CutKeepsAt<T>(s: seq<T>, m: nat, i: nat)
    requires m < |s| && i < |s| && i != m
    ensures var at := if i <= m then i else i - 1; at < |Cut(s, m)| && Cut(s, m)[at] == s[i]
  {
  }

  /** Where an entry with another key stands once `k` is dropped. */
  lemma DropKeepsAt<K, V>(c: Cache<K, V>, k: K, i: nat)
    requires DistinctKeys(c) && i < |c| && c[i].key != k
    ensures Others(c, k, i) < |Drop(c, k)| && Drop(c, k)[Others(c, k, i)] == c[i]
  {
    if m: nat :| m < |c| && c[m].key == k {
      DropAt(c, m);
      OthersAround(c, m, i);
      CutKeepsAt(c, m, i);
    } else {
      DropAbsent(c, k);
      OthersWithout(c, k, i);
    }
  }

  lemma {:induction false} DropPrefixBytes<K, V>(c: Cache<K, V>, k: K, n: nat)
    requires DistinctKeys(c) && n <= |c|
    ensures Others(c, k, n) <= |Drop(c, k)| && Sum(Drop(c, k)[..Others(c, k, n)]) == OthersBytes(c, k, n)
    decreases n
  {
    if n > 0 {
      var d, b := Drop(c, k), Others(c, k, n - 1);
      DropPrefixBytes(c, k, n - 1);
      if c[n - 1].key != k {
        DropKeepsAt(c, k, n - 1);
        assert d[..b + 1][..b] == d[..b];
      }
    }
  }

  lemma {:induction false} SumRises<K, V>(c: Cache<K, V>, n: nat)
    requires n <= |c|
    ensures Sum(c[..n]) <= Sum(c)
    decreases |c|
  {
    if n == |c| {
      assert c[..n] == c;
    } else {
      SumRises(c[..|c| - 1], n);
      assert c[..|c| - 1][..n] == c[..n];
    }
  }

  /** A prefix of `all` is kept by a trim exactly when it fits. */
  lemma TrimKeepsIff<K, V>(all: Cache<K, V>, budget: nat, n: nat)
    requires n <= |all|
    ensures n <= |Trim(all, budget)| <==> Sum(all[..n]) <= budget
  {
    TrimIsLongestFittingPrefix(all, budget);
    var kept := Trim(all, budget);
    if n <= |kept| {
      SumRises(kept, n);
      assert kept[..n] == all[..n];
    }
  }

  /** What a put does to an entry under another key: it stays exactly when the new entry and all that
      stand before it, with itself, fit the budget; and then it stands right behind those. */
  lemma PutKeepsIff<K, V>(c: Cache<K, V>, k: K, v: V, bytes: nat, budget: nat, i: nat)
    requires DistinctKeys(c) && i < |c| && c[i].key != k
    ensures var after := AfterPut(c, k, v, bytes, budget);
      && (c[i] in after <==> bytes + OthersBytes(c, k, i + 1) <= budget)
      && (c[i] in after ==> 1 + Others(c, k, i) < |after| && after[1 + Others(c, k, i)] == c[i])
      && (after != [] ==> after[0] == Slot(k, v, bytes))
  {
    var rest, at := Drop(c, k), 1 + Others(c, k, i);
    var all := [Slot(k, v, bytes)] + rest;
    var after := Trim(all, budget);
    DropKeepsAt(c, k, i);
    DropPrefixBytes(c, k, i + 1);
    assert all[..at + 1] == [Slot(k, v, bytes)] + rest[..at];
    SumFront(rest[..at], k, v, bytes);
    TrimKeepsIff(all, budget, at + 1);
    TrimIsLongestFittingPrefix(all, budget);
    KeptAt(c, k, v, bytes, after, at, c[i]);
  }

  /** In a prefix of the new entry and the others, an entry is only at its own place. */
  lemma KeptAt<K, V>(c: Cache<K, V>, k: K, v: V, bytes: nat, after: Cache<K, V>, at: nat, s: Slot<K, V>)
    requires DistinctKeys(c) && s.key != k
    requires var all := [Slot(k, v, bytes)] + Drop(c, k); after <= all && at < |all| && all[at] == s
    ensures s in after <==> at < |after|
  {
    DropKeepsOthers(c, k);
    var all := [Slot(k, v, bytes)] + Drop(c, k);
    assert forall j :: 0 < j < |all| ==> all[j] == Drop(c, k)[j - 1];
    if s in after {
      var j :| 0 <= j < |after| && after[j] == s;
      assert all[j] == s;
    }
    assert at < |after| ==> after[at] == s;
  }

  /** Nothing else is in the cache after a put. */
  lemma PutAddsOnlyItself<K, V>(c: Cache<K, V>, k: K, v: V, bytes: nat, budget: nat, s: Slot<K, V>)
    requires DistinctKeys(c) && s in AfterPut(c, k, v, bytes, budget)
    ensures s == Slot(k, v, bytes) || (s in c && s.key != k)
  {
    PutKeepsOthers(c, k, v, bytes, budget);
  }

  /** A lookup finds the entry with the key, and none exactly when there is none. */
  lemma LookupFinds<K, V>(c: Cache<K, V>, k: K, s: Slot<K, V>)
    requires DistinctKeys(c)
    ensures Lookup(c, k) == Some(s) <==> s in c && s.key == k
    ensures Lookup(c, k).None? <==> forall i :: 0 <= i < |c| ==> c[i].key != k
  {
    if i :| 0 <= i < |c| && c[i].key == k {
      DropAt(c, i);
    } else {
      DropAbsent(c, k);
    }
  }

  /** A get moves what it finds to the front and leaves the rest in order. */
  lemma GetMovesToFront<K, V>(c: Cache<K, V>, k: K, i: nat)
    requires DistinctKeys(c) && i < |c|
    ensures c[i].key == k ==> AfterGet(c, k) == [c[i]] + c[..i] + c[i + 1..]
    ensures (forall j :: 0 <= j < |c| ==> c[j].key != k) ==> AfterGet(c, k) == c
  {
    if c[i].key == k {
      DropAt(c, i);
      assert [c[i]] + c[..i] + c[i + 1..] == [c[i]] + Cut(c, i);
    }
    if forall j :: 0 <= j < |c| ==> c[j].key != k {
      DropAbsent(c, k);
    }
  }

  /** Two puts that fit together are both there, the later one first. */
  lemma TwoPuts<K, V>(j: K, v: V, m: nat, k: K, w: V, n: nat, budget: nat)
    requires j != k && m + n <= budget
    ensures After([Put(j, v, m), Put(k, w, n)], budget) == [Slot(k, w, n), Slot(j, v, m)]
  {
    var first: seq<Op<K, V>> := [Put(j, v, m)];
    var ops: seq<Op<K, V>> := [Put(j, v, m), Put(k, w, n)];
    PutOnto([], j, v, m, budget);
    assert first[..0] == [] && After(first[..0], budget) == [];
    assert After(first, budget) == [Slot(j, v, m)];
    PutOnto([Slot(j, v, m)], k, w, n, budget);
    assert ops[..1] == first;
  }

  lemma PutOnto<K, V>(c: Cache<K, V>, k: K, v: V, bytes: nat, budget: nat)
    requires |c| <= 1 && (c != [] ==> c[0].key != k) && bytes + (if c == [] then 0 else c[0].bytes) <= budget
    ensures AfterPut(c, k, v, bytes, budget) == [Slot(k, v, bytes)] + c
  {
    DropAbsent(c, k);
    SumFront(c, k, v, bytes);
    if c != [] {
      assert c == [c[0]];
      SumOne(c[0]);
    }
  }
}
