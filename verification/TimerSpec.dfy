/**
 What a timer heap means: a finite map from live timer ids to deadlines, and the
 sorted lists that its pop operations return. Nothing here mentions the heap.
 */
module TimerSpec {
  datatype Entry = Entry(deadline: int, id: nat)

  type Live = map<nat, int>

  /** The strict order of the heap: by deadline, then by id. */
  predicate Before(a: Entry, b: Entry) {
    a.deadline < b.deadline || (a.deadline == b.deadline && a.id < b.id)
  }

  ghost predicate Sorted(s: seq<Entry>) {
    forall i, j :: 0 <= i < j < |s| ==> Before(s[i], s[j])
  }

  ghost function Elements(s: seq<Entry>): set<Entry> {
    set e | e in s
  }

  /** The timers whose deadline is one of `deadlines`. */
  ghost function Group(live: Live, deadlines: set<int>): set<Entry> {
    set id | id in live && live[id] in deadlines :: Entry(live[id], id)
  }

  ghost function Without(live: Live, deadlines: set<int>): Live {
    map id | id in live && live[id] !in deadlines :: live[id]
  }

  ghost function ReadyDeadlines(live: Live, now: int): set<int> {
    set id | id in live && live[id] <= now :: live[id]
  }

  ghost function Ready(live: Live, now: int): set<Entry> {
    set id | id in live && live[id] <= now :: Entry(live[id], id)
  }

  ghost function NotReady(live: Live, now: int): Live {
    map id | id in live && now < live[id] :: live[id]
  }

  /** `s` lists exactly the ready timers in (deadline, id) order. */
  ghost predicate IsReadyList(live: Live, now: int, s: seq<Entry>) {
    Sorted(s) && Elements(s) == Ready(live, now)
  }

  /** `chosen` holds the smallest elements of `all`. */
  ghost predicate LowestOf(all: set<int>, chosen: set<int>) {
    chosen <= all && forall a, b :: a in chosen && b in all && b !in chosen ==> a < b
  }

  /**
   One pop: the timers of the earliest ready deadlines `batches` leave, sorted,
   whole deadline groups at a time, and every other timer stays.
   */
  ghost predicate PopsBatches(live: Live, now: int, batches: set<int>, out: seq<Entry>, rest: Live) {
    && LowestOf(ReadyDeadlines(live, now), batches)
    && Sorted(out)
    && Elements(out) == Group(live, batches)
    && rest == Without(live, batches)
  }

  /** A strictly sorted list is determined by the set of its elements. */
  lemma {:induction false} SortedListUnique(s: seq<Entry>, t: seq<Entry>)
    requires Sorted(s) && Sorted(t) && Elements(s) == Elements(t)
    ensures s == t
  {
    if s == [] {
      assert forall i :: 0 <= i < |t| ==> t[i] in Elements(t);
    } else {
      assert s[0] in Elements(s);
      assert t[0] in Elements(t) && t[0] in Elements(s);
      var i :| 0 <= i < |s| && s[i] == t[0];
      var j :| 0 <= j < |t| && t[j] == s[0];
      assert s[0] == t[0];
      forall e
        ensures e in Elements(s[1..]) <==> e in Elements(t[1..])
      {
        TailElements(s, e);
        TailElements(t, e);
      }
      SortedListUnique(s[1..], t[1..]);
      assert s == [s[0]] + s[1..] && t == [t[0]] + t[1..];
    }
  }

  lemma TailElements(s: seq<Entry>, e: Entry)
    requires s != [] && Sorted(s)
    ensures e in Elements(s[1..]) <==> e in Elements(s) && e != s[0]
  {
    if e in Elements(s) && e != s[0] {
      var i :| 0 <= i < |s| && s[i] == e;
      assert s[1..][i - 1] == e;
    }
  }

  /** Lowest subsets of one finite set are determined by their size. */
  lemma LowestUnique(all: set<int>, a: set<int>, b: set<int>)
    requires LowestOf(all, a) && LowestOf(all, b) && |a| == |b|
    ensures a == b
  {
    assert forall x, y :: x in a && x !in b ==> y !in b || y in a;
    if a <= b {
      SubsetSize(a, b);
    } else {
      SubsetSize(b, a);
    }
  }

  lemma SubsetSize(a: set<int>, b: set<int>)
    requires a <= b
    ensures |a| <= |b|
    ensures |a| == |b| ==> a == b
  {
    assert |b - a| == |b| - |a|;
    assert b == a + (b - a);
  }

  /** A pop of every ready deadline is the ready list. */
  lemma AllBatchesAreReadyList(live: Live, now: int, batches: set<int>, out: seq<Entry>, rest: Live)
    requires PopsBatches(live, now, batches, out, rest)
    requires |batches| == |ReadyDeadlines(live, now)|
    ensures IsReadyList(live, now, out) && rest == NotReady(live, now)
  {
    LowestUnique(ReadyDeadlines(live, now), batches, ReadyDeadlines(live, now));
    assert Group(live, batches) == Ready(live, now);
  }

  ghost function Flatten(outs: seq<seq<Entry>>): seq<Entry> {
    if outs == [] then [] else outs[0] + Flatten(outs[1..])
  }

  /**
   Popping slice by slice at one fixed `now` until nothing is ready yields, in
   order, exactly the list that a single unbudgeted pop yields, and leaves the
   same timers behind, however the slices cut the deadlines.
   */
  lemma {:induction false} SlicesConcatenate(now: int, lives: seq<Live>, batches: seq<set<int>>, outs: seq<seq<Entry>>)
    requires |lives| == |outs| + 1 && |batches| == |outs|
    requires forall i :: 0 <= i < |outs| ==> PopsBatches(lives[i], now, batches[i], outs[i], lives[i + 1])
    requires ReadyDeadlines(lives[|outs|], now) == {}
    ensures IsReadyList(lives[0], now, Flatten(outs))
    ensures lives[|outs|] == NotReady(lives[0], now)
  {
    if outs == [] {
      NoneReady(lives[0], now);
    } else {
      SlicesConcatenate(now, lives[1..], batches[1..], outs[1..]);
      PopThenReadyList(lives[0], now, batches[0], outs[0], lives[1], Flatten(outs[1..]));
    }
  }

  /** All ready timers are the group of all ready deadlines. */
  lemma ReadyIsGroup(live: Live, now: int)
    ensures Group(live, ReadyDeadlines(live, now)) == Ready(live, now)
  {
    forall id | id in live && live[id] <= now
      ensures live[id] in ReadyDeadlines(live, now)
    {
    }
  }

  /** Without a ready deadline there is no ready timer, and conversely. */
  lemma NoneReady(live: Live, now: int)
    ensures ReadyDeadlines(live, now) == {} <==> Ready(live, now) == {}
    ensures ReadyDeadlines(live, now) == {} ==> NotReady(live, now) == live
  {
    if id :| id in live && live[id] <= now {
      assert live[id] in ReadyDeadlines(live, now);
      assert Entry(live[id], id) in Ready(live, now);
    }
  }

  lemma PopThenReadyList(live: Live, now: int, batches: set<int>, out: seq<Entry>, rest: Live, tail: seq<Entry>)
    requires PopsBatches(live, now, batches, out, rest)
    requires IsReadyList(rest, now, tail)
    ensures IsReadyList(live, now, out + tail)
    ensures NotReady(rest, now) == NotReady(live, now)
  {
    forall i, j | 0 <= i < |out| && 0 <= j < |tail|
      ensures Before(out[i], tail[j])
    {
      assert out[i] in Elements(out) && tail[j] in Elements(tail);
      assert tail[j].deadline in ReadyDeadlines(live, now);
    }
    forall e
      ensures e in Elements(out + tail) <==> e in Ready(live, now)
    {
      assert e in Elements(out + tail) <==> e in Elements(out) || e in Elements(tail);
      if e in Ready(live, now) {
        assert e.id in live && e == Entry(live[e.id], e.id);
        if e.deadline !in batches {
          assert e.id in rest;
          assert e in Ready(rest, now);
        }
      }
    }
    assert forall d :: d in batches ==> d in ReadyDeadlines(live, now);
  }
}
