/**
 * The cache of prepared components: a list kept in order of use, its refinement of an abstract
 * LRU, and its behaviour when misses, compilations and insertions interleave.
 */
module PreparedCache {
  import opened Wrappers

  datatype Source = Component(path: string) | Precompiled(path: string)

  /** A prepared component; `from` is the source it was prepared from. */
  datatype Prepared = Prepared(from: Source, stamp: nat)

  datatype Entry = Entry(source: Source, pre: Prepared)

  // ---------------------------------------------------------------- the operations on values

  function Keys(es: seq<Entry>): seq<Source> {
    seq(|es|, i requires 0 <= i < |es| => es[i].source)
  }

  function Position(es: seq<Entry>, source: Source): (p: nat)
    ensures p <= |es|
    ensures p < |es| ==> es[p].source == source
    ensures forall i :: 0 <= i < p ==> es[i].source != source
  {
    if es == [] || es[0].source == source then 0 else 1 + Position(es[1..], source)
  }

  function Retain(es: seq<Entry>, source: Source): (rest: seq<Entry>)
    ensures forall e :: e in rest <==> e in es && e.source != source
    ensures |rest| <= |es|
  {
    if es == [] then []
    else (if es[0].source == source then [] else [es[0]]) + Retain(es[1..], source)
  }

  function Last<T>(s: seq<T>, n: nat): seq<T> {
    if |s| <= n then s else s[|s| - n..]
  }

  function Touch(es: seq<Entry>, p: nat): seq<Entry>
    requires p < |es|
  {
    es[..p] + es[p + 1..] + [es[p]]
  }

  function Inserted(es: seq<Entry>, max: nat, source: Source, pre: Prepared): seq<Entry> {
    var kept := Retain(es, source);
    if max == 0 then kept else Last(kept, max - 1) + [Entry(source, pre)]
  }

  class PreparedCache {
    const max: nat
    var entries: seq<Entry>

    constructor (max: nat)
      ensures this.max == max && entries == []
    {
      this.max := max;
      entries := [];
    }

    method Get(source: Source) returns (pre: Option<Prepared>)
      modifies this
      ensures var p := Position(old(entries), source);
        if p < |old(entries)| then pre == Some(old(entries)[p].pre) && entries == Touch(old(entries), p)
        else pre == None && entries == old(entries)
    {
      var index := 0;
      while index < |entries| && entries[index].source != source
        invariant 0 <= index <= |entries| && entries == old(entries)
        invariant forall i :: 0 <= i < index ==> entries[i].source != source
      {
        index := index + 1;
      }
      if index == |entries| {
        return None;
      }
      var entry := entries[index];
      entries := entries[..index] + entries[index + 1..];
      entries := entries + [entry];
      pre := Some(entry.pre);
    }

    method Insert(source: Source, pre: Prepared)
      modifies this
      ensures entries == Inserted(old(entries), max, source, pre)
    {
      entries := Retain(entries, source);
      if max > 0 {
        ghost var kept := entries;
        while |entries| >= max
          invariant entries == Last(kept, if |entries| >= max - 1 then |entries| else max - 1)
          invariant |entries| >= max - 1 || entries == kept
        {
          entries := entries[1..];
        }
        entries := entries + [Entry(source, pre)];
      }
    }

    /** Wasip3Runtime::prepare run alone; `compiled` is what compiling the source gives, if it succeeds. */
    method Prepare(source: Source, compiled: Option<Prepared>) returns (pre: Option<Prepared>)
      modifies this
      ensures compiled.Some? ==> entries == PrepareOne(old(entries), max, source, compiled.value)
      ensures compiled.None? ==>
        var p := Position(old(entries), source);
        entries == if p < |old(entries)| then Touch(old(entries), p) else old(entries)
      ensures var p := Position(old(entries), source);
        pre == if p < |old(entries)| then Some(old(entries)[p].pre) else compiled
    {
      pre := Get(source);
      if pre.None? && compiled.Some? {
        Insert(source, compiled.value);
        pre := compiled;
      }
    }
  }

  // ---------------------------------------------------------------- the abstract LRU

  function Remove(ks: seq<Source>, k: Source): seq<Source> {
    if ks == [] then [] else (if ks[0] == k then [] else [ks[0]]) + Remove(ks[1..], k)
  }

  /** The distinct requested keys, the least recently requested first. */
  function Recent(h: seq<Source>): seq<Source> {
    if h == [] then [] else Remove(Recent(h[..|h| - 1]), h[|h| - 1]) + [h[|h| - 1]]
  }

  /** The position of the last request for k, or -1. */
  function LastUse(h: seq<Source>, k: Source): int {
    if h == [] then -1 else if h[|h| - 1] == k then |h| - 1 else LastUse(h[..|h| - 1], k)
  }

  lemma {:induction false} RemoveKeeps(ks: seq<Source>, k: Source)
    ensures forall x :: x in Remove(ks, k) <==> x in ks && x != k
    ensures Distinct(ks) ==> Distinct(Remove(ks, k))
    ensures |Remove(ks, k)| <= |ks|
  {
    if ks != [] {
      RemoveKeeps(ks[1..], k);
      if Distinct(ks) {
        assert Distinct(ks[1..]);
        assert ks[0] !in ks[1..];
      }
    }
  }

  lemma {:induction false} RemoveAbsent(ks: seq<Source>, k: Source)
    requires k !in ks
    ensures Remove(ks, k) == ks
  {
    if ks != [] {
      RemoveAbsent(ks[1..], k);
    }
  }

  lemma {:induction false} RemoveAppend(a: seq<Source>, b: seq<Source>, k: Source)
    ensures Remove(a + b, k) == Remove(a, k) + Remove(b, k)
  {
    if a == [] {
      assert a + b == b;
    } else {
      assert (a + b)[1..] == a[1..] + b;
      RemoveAppend(a[1..], b, k);
      var first := if a[0] == k then [] else [a[0]];
      assert Remove(a + b, k) == first + (Remove(a[1..], k) + Remove(b, k));
    }
  }

  ghost predicate OrderedByUse(ks: seq<Source>, h: seq<Source>) {
    forall i, j :: 0 <= i < j < |ks| ==> LastUse(h, ks[i]) < LastUse(h, ks[j])
  }

  lemma {:induction false} OrderSurvivesRemove(ks: seq<Source>, h: seq<Source>, k: Source)
    requires OrderedByUse(ks, h)
    ensures OrderedByUse(Remove(ks, k), h)
  {
    if ks != [] {
      OrderSurvivesRemove(ks[1..], h, k);
      RemoveKeeps(ks[1..], k);
      var rest := Remove(ks[1..], k);
      forall j | 0 <= j < |rest| ensures LastUse(h, ks[0]) < LastUse(h, rest[j]) {
        assert rest[j] in ks[1..];
      }
    }
  }

  lemma LastUseBound(h: seq<Source>, k: Source)
    ensures -1 <= LastUse(h, k) < |h|
    ensures LastUse(h, k) >= 0 <==> k in h
  {}

  /** Recent is exactly: every requested key once, ordered by its last request. */
  lemma {:induction false} RecentMeaning(h: seq<Source>)
    ensures Distinct(Recent(h))
    ensures forall k :: k in Recent(h) <==> k in h
    ensures OrderedByUse(Recent(h), h)
  {
    if h != [] {
      var init, last := h[..|h| - 1], h[|h| - 1];
      assert h == init + [last];
      RecentMeaning(init);
      RemoveKeeps(Recent(init), last);
      OrderSurvivesRemove(Recent(init), init, last);
      var older := Remove(Recent(init), last);
      assert Recent(h) == older + [last];
      forall k | k in older ensures LastUse(h, k) == LastUse(init, k) < |h| - 1 {
        LastUseBound(init, k);
      }
      forall i, j | 0 <= i < j < |Recent(h)| ensures LastUse(h, Recent(h)[i]) < LastUse(h, Recent(h)[j]) {
        assert Recent(h)[i] == older[i] && older[i] in older;
        if j < |older| {
          assert Recent(h)[j] == older[j] && older[j] in older;
        }
      }
    }
  }

  // ---------------------------------------------------------------- refinement

  /** A successful prepare: use the cached component, or insert the compiled one. */
  function PrepareOne(es: seq<Entry>, max: nat, source: Source, compiled: Prepared): seq<Entry> {
    var p := Position(es, source);
    if p < |es| then Touch(es, p) else Inserted(es, max, source, compiled)
  }

  function PrepareAll(max: nat, h: seq<Source>, compiled: Source -> Prepared): seq<Entry> {
    if h == [] then []
    else PrepareOne(PrepareAll(max, h[..|h| - 1], compiled), max, h[|h| - 1], compiled(h[|h| - 1]))
  }

  lemma KeysCons(e: Entry, es: seq<Entry>)
    ensures Keys([e] + es) == [e.source] + Keys(es)
  {}

  lemma {:induction false} RetainKeys(es: seq<Entry>, source: Source)
    ensures Keys(Retain(es, source)) == Remove(Keys(es), source)
  {
    if es != [] {
      var e, rest := es[0], es[1..];
      RetainKeys(rest, source);
      assert es == [e] + rest;
      KeysCons(e, rest);
      assert Keys(es)[1..] == Keys(rest);
      KeysCons(e, Retain(rest, source));
      assert [] + Retain(rest, source) == Retain(rest, source);
      assert [] + Remove(Keys(rest), source) == Remove(Keys(rest), source);
    }
  }

  lemma RemoveSelf(k: Source)
    ensures Remove([k], k) == []
  {
    assert [k][1..] == [];
  }

  lemma RemoveMiddle(a: seq<Source>, k: Source, b: seq<Source>)
    requires k !in a && k !in b
    ensures Remove(a + [k] + b, k) == a + b
  {
    RemoveSelf(k);
    RemoveAbsent(a, k);
    RemoveAbsent(b, k);
    RemoveAppend(a, [k], k);
    RemoveAppend(a + [k], b, k);
    assert a + [] == a;
  }

  lemma DistinctAround(ks: seq<Source>, p: nat)
    requires p < |ks| && Distinct(ks)
    ensures ks[p] !in ks[..p] && ks[p] !in ks[p + 1..]
    ensures ks == ks[..p] + [ks[p]] + ks[p + 1..]
  {}

  /** Using a key of a duplicate-free list moves it to the end. */
  lemma TouchKeys(es: seq<Entry>, p: nat)
    requires p < |es| && Distinct(Keys(es))
    ensures Keys(Touch(es, p)) == Remove(Keys(es), es[p].source) + [es[p].source]
  {
    var ks := Keys(es);
    DistinctAround(ks, p);
    RemoveMiddle(ks[..p], ks[p], ks[p + 1..]);
    assert Keys(Touch(es, p)) == ks[..p] + ks[p + 1..] + [ks[p]];
  }

  /** The n last elements and what precedes them. */
  lemma LastSplit<T>(s: seq<T>, n: nat) returns (front: seq<T>)
    ensures s == front + Last(s, n)
    ensures if |s| <= n then front == [] else |Last(s, n)| == n
    ensures forall x :: x in Last(s, n) ==> x in s
    ensures Distinct(s) ==> Distinct(Last(s, n)) && forall x :: x in Last(s, n) ==> x !in front
  {
    front := if |s| <= n then [] else s[..|s| - n];
  }

  lemma LastAppend<T>(a: seq<T>, b: seq<T>, n: nat)
    requires |b| >= n || a == []
    ensures Last(a + b, n) == Last(b, n)
  {
    if a == [] {
      assert a + b == b;
    }
  }

  /** Dropping k from the n last keys, or from all of them before taking n - 1, leaves the same keys. */
  lemma LastRemovePresent(ks: seq<Source>, n: nat, k: Source)
    requires Distinct(ks) && n > 0 && k in Last(ks, n)
    ensures Remove(Last(ks, n), k) == Last(Remove(ks, k), n - 1)
  {
    var back := Last(ks, n);
    var front := LastSplit(ks, n);
    RemoveAppend(front, back, k);
    RemoveAbsent(front, k);
    RemoveLength(back, k);
    LastAppend(front, Remove(back, k), n - 1);
  }

  lemma {:induction false} RemoveLength(ks: seq<Source>, k: Source)
    requires Distinct(ks) && k in ks
    ensures |Remove(ks, k)| == |ks| - 1
  {
    if ks[0] == k {
      assert k !in ks[1..];
      RemoveAbsent(ks[1..], k);
    } else {
      RemoveLength(ks[1..], k);
    }
  }

  lemma LastRemoveAbsent(ks: seq<Source>, n: nat, k: Source)
    requires Distinct(ks) && n > 0 && k !in Last(ks, n)
    ensures Last(Last(ks, n), n - 1) == Last(Remove(ks, k), n - 1)
  {
    var back := Last(ks, n);
    var front := LastSplit(ks, n);
    RemoveAppend(front, back, k);
    RemoveAbsent(back, k);
    LastAfterRemove(front, back, n, k);
  }

  lemma LastAfterRemove(front: seq<Source>, back: seq<Source>, n: nat, k: Source)
    requires n > 0 && (front == [] || |back| == n)
    ensures Last(Remove(front, k) + back, n - 1) == Last(back, n - 1)
  {
    LastAppend(Remove(front, k), back, n - 1);
  }

  lemma LastKeys(es: seq<Entry>, n: nat)
    ensures Keys(Last(es, n)) == Last(Keys(es), n)
  {}

  lemma HitKeepsLru(es: seq<Entry>, max: nat, ks: seq<Source>, p: nat)
    requires p < |es| && Distinct(ks) && Keys(es) == Last(ks, max)
    ensures Keys(Touch(es, p)) == Last(Remove(ks, es[p].source) + [es[p].source], max)
  {
    var k := es[p].source;
    var front := LastSplit(ks, max);
    assert Keys(es)[p] == k;
    TouchKeys(es, p);
    LastRemovePresent(ks, max, k);
    LastSnoc(Remove(ks, k), k, max);
  }

  lemma LastSnoc<T>(s: seq<T>, x: T, n: nat)
    requires n > 0
    ensures Last(s + [x], n) == Last(s, n - 1) + [x]
  {}

  lemma MissKeepsLru(es: seq<Entry>, max: nat, ks: seq<Source>, k: Source, pre: Prepared)
    requires Distinct(ks) && Keys(es) == Last(ks, max) && k !in Keys(es)
    ensures Keys(Inserted(es, max, k, pre)) == Last(Remove(ks, k) + [k], max)
  {
    RetainKeys(es, k);
    RemoveAbsent(Keys(es), k);
    if max > 0 {
      LastRemoveAbsent(ks, max, k);
      LastKeys(Retain(es, k), max - 1);
      LastSnoc(Remove(ks, k), k, max);
      KeysSnoc(Last(Retain(es, k), max - 1), Entry(k, pre));
    } else {
      assert Keys(es) == [];
    }
  }

  lemma KeysSnoc(es: seq<Entry>, e: Entry)
    ensures Keys(es + [e]) == Keys(es) + [e.source]
  {}

  /**
   * After any sequence of successful prepares the cached keys, in order, are exactly the `max`
   * most recently requested distinct keys.
   */
  lemma {:induction false} CacheIsLru(max: nat, h: seq<Source>, compiled: Source -> Prepared)
    ensures Keys(PrepareAll(max, h, compiled)) == Last(Recent(h), max)
  {
    if h != [] {
      var init, k := h[..|h| - 1], h[|h| - 1];
      var es := PrepareAll(max, init, compiled);
      CacheIsLru(max, init, compiled);
      RecentMeaning(init);
      var p := Position(es, k);
      if p < |es| {
        HitKeepsLru(es, max, Recent(init), p);
      } else {
        assert forall i :: 0 <= i < |es| ==> Keys(es)[i] == es[i].source;
        MissKeepsLru(es, max, Recent(init), k, compiled(k));
      }
    }
  }

  lemma RetainMembers(es: seq<Entry>, max: nat, source: Source, pre: Prepared)
    ensures forall e :: e in Inserted(es, max, source, pre) ==> e == Entry(source, pre) || e in es
  {
    var kept := Retain(es, source);
    if max > 0 {
      var front := LastSplit(kept, max - 1);
    }
  }

  lemma {:induction false} ValuesAreCompiled(max: nat, h: seq<Source>, compiled: Source -> Prepared)
    ensures forall e :: e in PrepareAll(max, h, compiled) ==> e.pre == compiled(e.source)
  {
    if h != [] {
      var es, k := PrepareAll(max, h[..|h| - 1], compiled), h[|h| - 1];
      ValuesAreCompiled(max, h[..|h| - 1], compiled);
      RetainMembers(es, max, k, compiled(k));
    }
  }

  /** So the whole cache is known: each of those keys with what compiling it gave. */
  lemma CacheContents(max: nat, h: seq<Source>, compiled: Source -> Prepared)
    ensures var ks := Last(Recent(h), max);
      PrepareAll(max, h, compiled) == seq(|ks|, i requires 0 <= i < |ks| => Entry(ks[i], compiled(ks[i])))
  {
    CacheIsLru(max, h, compiled);
    ValuesAreCompiled(max, h, compiled);
    var es, ks := PrepareAll(max, h, compiled), Last(Recent(h), max);
    assert Keys(es) == ks;
    forall i | 0 <= i < |es| ensures es[i] == Entry(ks[i], compiled(ks[i])) {
      assert Keys(es)[i] == es[i].source && es[i] in es;
    }
  }

  /** Stack inclusion: a smaller cache always holds the most recent part of a larger one. */
  lemma SmallerCacheIsSuffix(m: nat, n: nat, h: seq<Source>, compiled: Source -> Prepared)
    requires m <= n
    ensures Keys(PrepareAll(m, h, compiled)) == Last(Keys(PrepareAll(n, h, compiled)), m)
  {
    CacheIsLru(m, h, compiled);
    CacheIsLru(n, h, compiled);
  }

  /** So a request that hits a cache also hits every larger one. */
  lemma HitsAreMonotone(m: nat, n: nat, h: seq<Source>, k: Source, compiled: Source -> Prepared)
    requires m <= n && k in Keys(PrepareAll(m, h, compiled))
    ensures k in Keys(PrepareAll(n, h, compiled))
  {
    SmallerCacheIsSuffix(m, n, h, compiled);
  }

  // ---------------------------------------------------------------- interleaved prepares

  datatype Task = Idle | Compiling(source: Source)

  datatype Shared = Shared(entries: seq<Entry>, tasks: map<nat, Task>, returned: seq<(Source, Prepared)>)

  /** The lock is held for one lookup or one insertion, never while compiling. */
  datatype Event =
    | Lookup(task: nat, source: Source)
    | Compiled(task: nat, stamp: nat)
    | CompileFailed(task: nat)

  function TaskOf(s: Shared, task: nat): Task {
    if task in s.tasks then s.tasks[task] else Idle
  }

  function Step(max: nat, s: Shared, e: Event): Shared {
    match e
    case Lookup(task, source) =>
      if !TaskOf(s, task).Idle? then s
      else
        var p := Position(s.entries, source);
        if p < |s.entries| then s.(entries := Touch(s.entries, p), returned := s.returned + [(source, s.entries[p].pre)])
        else s.(tasks := s.tasks[task := Compiling(source)])
    case Compiled(task, stamp) =>
      if TaskOf(s, task).Idle? then s
      else
        var source := TaskOf(s, task).source;
        var pre := Prepared(source, stamp);
        Shared(Inserted(s.entries, max, source, pre), s.tasks[task := Idle], s.returned + [(source, pre)])
    case CompileFailed(task) => s.(tasks := s.tasks[task := Idle])
  }

  function Run(max: nat, s: Shared, es: seq<Event>): Shared
    decreases |es|
  {
    if es == [] then s else Run(max, Step(max, s, es[0]), es[1..])
  }

  ghost predicate Consistent(max: nat, s: Shared) {
    && Distinct(Keys(s.entries))
    && |s.entries| <= max
    && (forall e :: e in s.entries ==> e.pre.from == e.source)
    && (forall r :: r in s.returned ==> r.1.from == r.0)
  }

  lemma StepConsistent(max: nat, s: Shared, e: Event)
    requires Consistent(max, s)
    ensures Consistent(max, Step(max, s, e))
  {
    match e
    case Lookup(task, source) =>
      var p := Position(s.entries, source);
      if p < |s.entries| {
        TouchConsistent(s.entries, p);
        assert s.entries[p] in s.entries;
      }
    case Compiled(task, stamp) =>
      if TaskOf(s, task).Compiling? {
        InsertConsistent(max, s.entries, TaskOf(s, task).source, stamp);
      }
    case CompileFailed(_) =>
  }

  lemma TouchConsistent(es: seq<Entry>, p: nat)
    requires p < |es| && Distinct(Keys(es))
    ensures Distinct(Keys(Touch(es, p))) && |Touch(es, p)| == |es|
    ensures forall x :: x in Touch(es, p) ==> x in es
  {
    TouchKeys(es, p);
    RemoveKeeps(Keys(es), es[p].source);
    var ks := Remove(Keys(es), es[p].source);
    assert forall i :: 0 <= i < |ks| ==> ks[i] in ks;
    assert forall x :: x in es[..p] || x in es[p + 1..] ==> x in es;
  }

  lemma InsertConsistent(max: nat, es: seq<Entry>, source: Source, stamp: nat)
    requires Distinct(Keys(es)) && |es| <= max
    requires forall e :: e in es ==> e.pre.from == e.source
    ensures var t := Inserted(es, max, source, Prepared(source, stamp));
      Distinct(Keys(t)) && |t| <= max && forall e :: e in t ==> e.pre.from == e.source
  {
    if max > 0 {
      InsertDistinct(max, es, source, Prepared(source, stamp));
      var front := LastSplit(Retain(es, source), max - 1);
      assert forall e :: e in Last(Retain(es, source), max - 1) ==> e in Retain(es, source);
    }
  }

  lemma DistinctSnoc<T>(s: seq<T>, x: T)
    requires Distinct(s) && x !in s
    ensures Distinct(s + [x])
  {}

  lemma InsertDistinct(max: nat, es: seq<Entry>, source: Source, pre: Prepared)
    requires Distinct(Keys(es)) && max > 0
    ensures Distinct(Keys(Inserted(es, max, source, pre)))
  {
    var kept := Retain(es, source);
    var ks := Remove(Keys(es), source);
    RetainKeys(es, source);
    RemoveKeeps(Keys(es), source);
    var front := LastSplit(ks, max - 1);
    LastKeys(kept, max - 1);
    KeysSnoc(Last(kept, max - 1), Entry(source, pre));
    DistinctSnoc(Last(ks, max - 1), source);
  }

  /** In every interleaving: distinct keys, bounded size, and nothing is ever prepared from another source. */
  lemma {:induction false} InterleavedPrepares(max: nat, s: Shared, es: seq<Event>)
    requires Consistent(max, s)
    ensures Consistent(max, Run(max, s, es))
    decreases |es|
  {
    if es != [] {
      StepConsistent(max, s, es[0]);
      InterleavedPrepares(max, Step(max, s, es[0]), es[1..]);
    }
  }

  /**
   * What each task is given: a lookup that finds its source returns the cached component and makes it
   * the most recent one; one that does not starts a compilation, whose success returns the component
   * compiled and, if the cache holds anything, makes it the most recent one; nothing else returns.
   */
  lemma TasksAreAnswered(max: nat, s: Shared, e: Event)
    requires Consistent(max, s)
    ensures var t := Step(max, s, e);
      match e
      case Lookup(task, source) =>
        TaskOf(s, task).Idle? ==>
          (if source in Keys(s.entries) then
             && t.entries != [] && t.entries[|t.entries| - 1] in s.entries && t.entries[|t.entries| - 1].source == source
             && t.returned == s.returned + [(source, t.entries[|t.entries| - 1].pre)] && t.tasks == s.tasks
           else t == s.(tasks := s.tasks[task := Compiling(source)]))
      case Compiled(task, stamp) =>
        TaskOf(s, task).Compiling? ==>
          var source := TaskOf(s, task).source;
          && t.returned == s.returned + [(source, Prepared(source, stamp))] && TaskOf(t, task).Idle?
          && (max > 0 ==> t.entries != [] && t.entries[|t.entries| - 1] == Entry(source, Prepared(source, stamp)))
      case CompileFailed(task) => TaskOf(t, task).Idle? && t.entries == s.entries && t.returned == s.returned
  {
    assert forall i :: 0 <= i < |s.entries| ==> Keys(s.entries)[i] == s.entries[i].source;
  }
}
