/** One concrete partitioner for `internal_parallel_for`: the integers of an
    interval [lo, hi), halved at the midpoint while the interval is longer than
    a grain size. The part kept is the lower half and the part split off is the
    upper half; an interval at or below the grain size splits off nothing. */
module HalvingRange {
  import opened ParallelFor

  datatype Interval = Interval(lo: int, hi: int)

  /** The interval's integers, in increasing order. */
  function Elems(iv: Interval): (s: seq<int>)
    ensures |s| == if iv.lo <= iv.hi then iv.hi - iv.lo else 0
    ensures forall i :: 0 <= i < |s| ==> s[i] == iv.lo + i
  {
    seq(if iv.lo <= iv.hi then iv.hi - iv.lo else 0, i => iv.lo + i)
  }

  function Split(grain: nat, iv: Interval): (Interval, Interval)
  {
    if iv.hi - iv.lo > grain then
      var mid := iv.lo + (iv.hi - iv.lo) / 2;
      (Interval(iv.lo, mid), Interval(mid, iv.hi))
    else
      (iv, Interval(iv.hi, iv.hi))
  }

  function Halving(grain: nat): Partitioning<Interval, int>
  {
    Partitioning(Elems, iv => Split(grain, iv))
  }

  /** Adjacent intervals list the integers of their union. */
  lemma ElemsConcat(lo: int, mid: int, hi: int)
    requires lo <= mid <= hi
    ensures Elems(Interval(lo, mid)) + Elems(Interval(mid, hi)) == Elems(Interval(lo, hi))
  {
  }

  /** With a grain size of at least one, halving meets the split contract. */
  lemma HalvingValid(grain: nat)
    requires grain >= 1
    ensures Halving(grain).Valid()
  {
    var part := Halving(grain);
    forall q: Interval
      ensures part.SplitOk(q)
    {
      if q.hi - q.lo > grain {
        var mid := q.lo + (q.hi - q.lo) / 2;
        ElemsConcat(q.lo, mid, q.hi);
        assert part.split(q) == (Interval(q.lo, mid), Interval(mid, q.hi));
        assert multiset(Elems(Interval(q.lo, mid))) + multiset(Elems(Interval(mid, q.hi)))
            == multiset(Elems(q));
      } else {
        assert part.split(q) == (q, Interval(q.hi, q.hi));
        assert Elems(Interval(q.hi, q.hi)) == [];
      }
    }
  }

  /** Eight integers under grain size 2 make four leaves. */
  lemma EightHasFourLeaves()
    ensures Halving(2).Valid()
    ensures Leaves(Halving(2), Interval(0, 8)) == 4
  {
    HalvingValid(2);
  }

  /** The integers 0 to 7 with grain size 2 are split 8 into 4 and 4, then
      each 4 into 2 and 2: three spawned tasks, four leaves, and every integer
      visited once, whatever order the scheduler picks. */
  lemma EightByTwo(childFirst: Path -> bool)
    ensures Halving(2).Valid()
    ensures Leaves(Halving(2), Interval(0, 8)) == 4
    ensures Spawns(Trace(Halving(2), childFirst, Interval(0, 8), [])) == 3
    ensures Joins(Trace(Halving(2), childFirst, Interval(0, 8), [])) == 3
    ensures multiset(Visited(Trace(Halving(2), childFirst, Interval(0, 8), [])))
         == multiset{0, 1, 2, 3, 4, 5, 6, 7}
  {
    EightHasFourLeaves();
    ForkJoinShape(Halving(2), childFirst, Interval(0, 8), []);
    Coverage(Halving(2), childFirst, Interval(0, 8), []);
    assert Halving(2).elems(Interval(0, 8)) == [0, 1, 2, 3, 4, 5, 6, 7];
  }

  /** A run of `internal_parallel_for` over 0 to 7 with grain size 2 that
      collects what `func` sees. */
  method CollectEight(childFirst: Path -> bool) returns (func: Func<int>, sched: Scheduler)
    ensures multiset(func.applied) == multiset{0, 1, 2, 3, 4, 5, 6, 7}
    ensures sched.spawned == 3 && sched.joined == 3
  {
    func := new Func();
    sched := new Scheduler();
    EightByTwo(childFirst);
    InternalParallelFor(sched, Halving(2), childFirst, Interval(0, 8), [], func);
  }
}
