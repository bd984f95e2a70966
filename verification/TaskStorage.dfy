/** python/src/apx_agent/_a2a.py, TaskStore: a bounded ring of tasks ordered by their latest put,
    each bound to the principal that created it. */
module TaskStorage {
  import opened Wrappers
  import opened Comprehension
  import opened A2aModels

  datatype Owned = Owned(task: Task, owner: Option<string>)

  function NotOf(id: string): Owned -> bool {
    (o: Owned) => o.task.id != id
  }

  function Remove(s: seq<Owned>, id: string): seq<Owned> {
    Filter(s, NotOf(id))
  }

  function LastN(s: seq<Owned>, n: nat): seq<Owned> {
    if |s| <= n then s else s[|s| - n..]
  }

  /** What a put leaves: the entry moves to the end, then the oldest go until `max` remain. */
  function PutIn(store: seq<Owned>, x: Owned, max: nat): seq<Owned> {
    LastN(Remove(store, x.task.id) + [x], max)
  }

  function Lookup(store: seq<Owned>, id: string, caller: Option<string>): Option<Task> {
    if store == [] then None
    else if store[0].task.id == id then (if store[0].owner == caller then Some(store[0].task) else None)
    else Lookup(store[1..], id, caller)
  }

  ghost predicate DistinctIds(s: seq<Owned>) {
    forall i, j :: 0 <= i < j < |s| ==> s[i].task.id != s[j].task.id
  }

  lemma RemoveAt(s: seq<Owned>, at: nat)
    requires DistinctIds(s) && at < |s|
    ensures Remove(s, s[at].task.id) == s[..at] + s[at + 1..]
  {
    var keep := NotOf(s[at].task.id);
    var front, back := s[..at], s[at + 1..];
    assert s == front + [s[at]] + back;
    FilterConcat(front + [s[at]], back, keep);
    FilterSnoc(front, s[at], keep);
    FilterKeepsAll(front, keep);
    FilterKeepsAll(back, keep);
  }

  lemma RemoveFound(s: seq<Owned>, at: nat, id: string)
    requires DistinctIds(s) && at <= |s| && (at < |s| ==> s[at].task.id == id)
    requires forall k :: 0 <= k < at ==> s[k].task.id != id
    ensures Remove(s, id) == if at < |s| then s[..at] + s[at + 1..] else s
  {
    if at < |s| {
      RemoveAt(s, at);
    } else {
      FilterKeepsAll(s, NotOf(id));
    }
  }

  lemma RemoveKeepsDistinct(s: seq<Owned>, id: string)
    requires DistinctIds(s)
    ensures DistinctIds(Remove(s, id))
  {
    var kept := Remove(s, id);
    forall i, j | 0 <= i < j < |kept|
      ensures kept[i].task.id != kept[j].task.id
    {
      FilterKeepsOrder(s, NotOf(id), i, j);
    }
  }

  lemma PutKeepsDistinct(s: seq<Owned>, x: Owned, max: nat)
    requires DistinctIds(s)
    ensures DistinctIds(PutIn(s, x, max))
  {
    RemoveKeepsDistinct(s, x.task.id);
    var kept := Remove(s, x.task.id);
    forall j | 0 <= j < |kept|
      ensures kept[j].task.id != x.task.id
    {
      assert kept[j] in kept;
    }
  }

  lemma {:induction false} LookupAt(s: seq<Owned>, at: nat, id: string, caller: Option<string>)
    requires at <= |s| && (at < |s| ==> s[at].task.id == id)
    requires forall k :: 0 <= k < at ==> s[k].task.id != id
    ensures Lookup(s, id, caller) ==
      if at < |s| && s[at].owner == caller then Some(s[at].task) else None
  {
    if at > 0 {
      LookupAt(s[1..], at - 1, id, caller);
    }
  }

  class TaskStore {
    const max: int
    var store: seq<Owned>

    ghost predicate Valid()
      reads this
    {
      DistinctIds(store)
    }

    constructor (max: int)
      ensures Valid() && this.max == max && store == []
    {
      this.max := max;
      store := [];
    }

    /** `while len > max: popitem(last=False)`. */
    method EvictOldest() returns (ok: bool)
      modifies this`store
      ensures ok <==> max >= 0
      ensures store == if max >= 0 then LastN(old(store), max) else []
    {
      while |store| > max
        invariant |store| <= |old(store)| && store == old(store)[|old(store)| - |store|..]
        invariant max >= 0 ==> store == old(store) || |store| >= max
        decreases |store|
      {
        if |store| == 0 {
          return false;
        }
        store := store[1..];
      }
      ok := true;
    }

    method Find(id: string) returns (at: nat)
      ensures at <= |store|
      ensures at < |store| ==> store[at].task.id == id
      ensures forall k :: 0 <= k < at ==> store[k].task.id != id
    {
      at := 0;
      while at < |store| && store[at].task.id != id
        invariant at <= |store| && forall k :: 0 <= k < at ==> store[k].task.id != id
      {
        at := at + 1;
      }
    }

    /** A negative bound empties the store and then fails on the empty pop. */
    method Put(task: Task, owner: Option<string>) returns (ok: bool)
      requires Valid()
      modifies this`store
      ensures Valid()
      ensures ok <==> max >= 0
      ensures store == if max >= 0 then PutIn(old(store), Owned(task, owner), max) else []
    {
      var at := Find(task.id);
      RemoveFound(store, at, task.id);
      if at < |store| {
        store := store[..at] + store[at + 1..];
      }
      store := store + [Owned(task, owner)];
      PutKeepsDistinct(old(store), Owned(task, owner), if max >= 0 then max else 0);
      ok := EvictOldest();
    }

    method GetTask(id: string, caller: Option<string>) returns (task: Option<Task>)
      requires Valid()
      ensures task == Lookup(store, id, caller)
    {
      var at := Find(id);
      LookupAt(store, at, id, caller);
      if at == |store| || store[at].owner != caller {
        return None;
      }
      return Some(store[at].task);
    }

    method Reset()
      modifies this`store
      ensures Valid() && store == []
    {
      store := [];
    }
  }

  // ---- The history the store stands for ----

  /** The store after a history of puts since the last reset. */
  function StoreAfter(h: seq<Owned>, max: nat): seq<Owned> {
    if h == [] then [] else PutIn(StoreAfter(h[..|h| - 1], max), h[|h| - 1], max)
  }

  ghost predicate IsLatest(h: seq<Owned>, i: int) {
    0 <= i < |h| && forall j :: i < j < |h| ==> h[j].task.id != h[i].task.id
  }

  /** The puts from position `k` on that no later put of the same id supersedes, in order. */
  ghost function LatestFrom(h: seq<Owned>, k: nat): seq<Owned>
    decreases |h| - k
  {
    if k >= |h| then [] else (if IsLatest(h, k) then [h[k]] else []) + LatestFrom(h, k + 1)
  }

  /** How many different ids were put after position `i`. */
  ghost function DistinctAfter(h: seq<Owned>, i: int): nat
    requires -1 <= i
  {
    |set j | i < j < |h| :: h[j].task.id|
  }

  lemma {:induction false} LatestHasIndex(h: seq<Owned>, k: nat, o: Owned) returns (i: nat)
    requires k <= |h| && o in LatestFrom(h, k)
    ensures k <= i && IsLatest(h, i) && h[i] == o
    decreases |h| - k
  {
    if IsLatest(h, k) && h[k] == o {
      i := k;
    } else {
      i := LatestHasIndex(h, k + 1, o);
    }
  }

  lemma {:induction false} IndexInLatest(h: seq<Owned>, k: nat, i: nat)
    requires k <= i && IsLatest(h, i)
    ensures h[i] in LatestFrom(h, k)
    decreases |h| - k
  {
    if k < i {
      IndexInLatest(h, k + 1, i);
    }
  }

  lemma {:induction false} LatestDistinct(h: seq<Owned>, k: nat)
    requires k <= |h|
    ensures DistinctIds(LatestFrom(h, k))
    decreases |h| - k
  {
    if k < |h| {
      LatestDistinct(h, k + 1);
      if IsLatest(h, k) {
        var later := LatestFrom(h, k + 1);
        forall j | 0 <= j < |later|
          ensures later[j].task.id != h[k].task.id
        {
          assert later[j] in later;
          var i := LatestHasIndex(h, k + 1, later[j]);
        }
      }
    }
  }

  lemma {:induction false} LatestCount(h: seq<Owned>, k: nat)
    requires k <= |h|
    ensures |LatestFrom(h, k)| == DistinctAfter(h, k - 1)
    decreases |h| - k
  {
    if k < |h| {
      LatestCount(h, k + 1);
      var later, here := set j | k < j < |h| :: h[j].task.id, set j | k - 1 < j < |h| :: h[j].task.id;
      assert here == later + {h[k].task.id};
      assert IsLatest(h, k) <==> h[k].task.id !in later;
      if !IsLatest(h, k) {
        assert here == later;
      }
    }
  }

  lemma RemoveFromOne(o: Owned, id: string)
    ensures Remove([], id) == [] && Remove([o], id) == if o.task.id == id then [] else [o]
  {
    FilterSnoc([], o, NotOf(id));
    assert [] + [o] == [o];
  }

  lemma LatestInLonger(h: seq<Owned>, x: Owned, k: nat)
    requires k < |h|
    ensures IsLatest(h + [x], k) <==> IsLatest(h, k) && h[k].task.id != x.task.id
  {
    var g := h + [x];
    if IsLatest(g, k) {
      assert g[|h|].task.id != g[k].task.id;
      forall j | k < j < |h|
        ensures h[j].task.id != h[k].task.id
      {
        assert g[j] == h[j];
      }
    }
  }

  lemma PrependBeforePut(head: seq<Owned>, rest: seq<Owned>, x: Owned)
    ensures Remove(head + rest, x.task.id) + [x] == Remove(head, x.task.id) + (Remove(rest, x.task.id) + [x])
  {
    FilterConcat(head, rest, NotOf(x.task.id));
  }

  lemma {:induction false} LatestAfterPut(h: seq<Owned>, x: Owned, k: nat)
    requires k <= |h|
    ensures LatestFrom(h + [x], k) == Remove(LatestFrom(h, k), x.task.id) + [x]
    decreases |h| - k
  {
    var g := h + [x];
    if k == |h| {
      assert IsLatest(g, k) && LatestFrom(g, k + 1) == [];
    } else {
      LatestAfterPut(h, x, k + 1);
      LatestInLonger(h, x, k);
      var head := if IsLatest(h, k) then [h[k]] else [];
      RemoveFromOne(h[k], x.task.id);
      PrependBeforePut(head, LatestFrom(h, k + 1), x);
    }
  }

  lemma RemoveDropsAtMostOne(s: seq<Owned>, id: string)
    requires DistinctIds(s)
    ensures |Remove(s, id)| >= |s| - 1
  {
    if at: nat :| at < |s| && s[at].task.id == id {
      RemoveAt(s, at);
    } else {
      FilterKeepsAll(s, NotOf(id));
    }
  }

  lemma LastNConcat(a: seq<Owned>, b: seq<Owned>, n: nat)
    requires a == [] || |b| >= n
    ensures LastN(a + b, n) == LastN(b, n)
  {
    assert (a + b)[|a|..] == b;
  }

  lemma PutAfterGone(gone: seq<Owned>, kept: seq<Owned>, x: Owned, max: nat)
    requires DistinctIds(kept) && (gone == [] || |kept| >= max)
    ensures PutIn(kept, x, max) == LastN(Remove(gone + kept, x.task.id) + [x], max)
  {
    var front, back := Remove(gone, x.task.id), Remove(kept, x.task.id);
    FilterConcat(gone, kept, NotOf(x.task.id));
    RemoveDropsAtMostOne(kept, x.task.id);
    LastNConcat(front, back + [x], max);
    assert front + (back + [x]) == front + back + [x];
  }

  /** Forgetting evicted entries first makes no difference to a put. */
  lemma PutOnSuffix(all: seq<Owned>, x: Owned, max: nat)
    requires DistinctIds(all)
    ensures PutIn(LastN(all, max), x, max) == LastN(Remove(all, x.task.id) + [x], max)
  {
    var kept := LastN(all, max);
    var gone := all[..|all| - |kept|];
    assert all == gone + kept;
    PutAfterGone(gone, kept, x, max);
  }

  /** The store holds the last `max` distinct ids of the put history, in the order of their latest
      put, each with its latest task and owner. */
  lemma {:induction false} StoreIsHistoryWindow(h: seq<Owned>, max: nat)
    ensures StoreAfter(h, max) == LastN(LatestFrom(h, 0), max)
  {
    if h != [] {
      var g, x := h[..|h| - 1], h[|h| - 1];
      assert h == g + [x];
      StoreIsHistoryWindow(g, max);
      LatestDistinct(g, 0);
      PutOnSuffix(LatestFrom(g, 0), x, max);
      LatestAfterPut(g, x, 0);
    }
  }

  lemma {:induction false} LatestSplit(h: seq<Owned>, k: nat, i: nat) returns (front: seq<Owned>)
    requires k <= i && IsLatest(h, i)
    ensures LatestFrom(h, k) == front + ([h[i]] + LatestFrom(h, i + 1))
    decreases i - k
  {
    if k == i {
      front := [];
    } else {
      front := LatestSplit(h, k + 1, i);
      var head := if IsLatest(h, k) then [h[k]] else [];
      assert head + (front + ([h[i]] + LatestFrom(h, i + 1))) == (head + front) + ([h[i]] + LatestFrom(h, i + 1));
      front := head + front;
    }
  }

  lemma WindowKeeps(all: seq<Owned>, max: nat, at: nat)
    requires DistinctIds(all) && at < |all|
    ensures all[at] in LastN(all, max) <==> |all| - at <= max
  {
    var kept := LastN(all, max);
    var gone := |all| - |kept|;
    assert kept == all[gone..];
    if at >= gone {
      assert kept[at - gone] == all[at];
    } else {
      forall k | 0 <= k < |kept|
        ensures kept[k] != all[at]
      {
        assert kept[k] == all[k + gone];
      }
    }
  }

  /** An unsuperseded put is still in the store exactly while fewer than `max` other ids followed. */
  lemma RetainedExactly(h: seq<Owned>, max: nat, i: nat)
    requires IsLatest(h, i)
    ensures h[i] in StoreAfter(h, max) <==> DistinctAfter(h, i) < max
  {
    var all := LatestFrom(h, 0);
    StoreIsHistoryWindow(h, max);
    LatestDistinct(h, 0);
    LatestCount(h, i + 1);
    var front := LatestSplit(h, 0, i);
    assert all[|front|] == h[i];
    WindowKeeps(all, max, |front|);
  }

  lemma {:induction false} LookupMember(s: seq<Owned>, id: string, caller: Option<string>, t: Task)
    requires DistinctIds(s)
    ensures Lookup(s, id, caller) == Some(t) <==> t.id == id && Owned(t, caller) in s
  {
    if s != [] {
      LookupMember(s[1..], id, caller, t);
      assert s == [s[0]] + s[1..];
      if s[0].task.id == id {
        forall k | 0 <= k < |s[1..]|
          ensures s[1..][k].task.id != id
        {
          assert s[1..][k] == s[k + 1];
        }
      }
    }
  }

  /** `get` answers as a scan of the history window would: with the task of the latest put of the
      id, to its owner only, while fewer than `max` other ids have been put since. */
  lemma GetAnswersFromHistory(h: seq<Owned>, max: nat, id: string, caller: Option<string>, t: Task)
    ensures Lookup(StoreAfter(h, max), id, caller) == Some(t) <==>
      t.id == id && exists i :: IsLatest(h, i) && h[i] == Owned(t, caller) && DistinctAfter(h, i) < max
  {
    StoreIsHistoryWindow(h, max);
    LatestDistinct(h, 0);
    var all, kept := LatestFrom(h, 0), StoreAfter(h, max);
    LookupMember(kept, id, caller, t);
    if Owned(t, caller) in kept {
      assert Owned(t, caller) in all;
      var i := LatestHasIndex(h, 0, Owned(t, caller));
      RetainedExactly(h, max, i);
    }
    if i :| IsLatest(h, i) && h[i] == Owned(t, caller) && DistinctAfter(h, i) < max {
      RetainedExactly(h, max, i);
    }
  }
}
