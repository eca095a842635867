/** The recursive fork-join `internal_parallel_for` and the public `parallel_for`
    overloads of include/async++/parallel_for.h, run sequentially.

    The partitioner is abstract: a `Partitioning` says how a partitioner value
    lists its elements (its iteration order) and how `split()` divides it into
    the part it keeps and the part it splits off. A spawned child task is run
    to completion before the join; whether it runs before or after the inline
    half is left to a scheduling oracle `childFirst`, asked afresh at every
    activation, so the properties below hold for every schedule that runs each
    spawned child as one block, on either side of the inline half. */
module ParallelFor {

  /** The partitioner capability. `split(q)` is `(remainder, sub)`: the value
      the partitioner has after `split()` and the value `split()` returned. */
  datatype Partitioning<!P(!new), T> = Partitioning(elems: P -> seq<T>, split: P -> (P, P))
  {
    /** The split contract at `q`: no element is lost or duplicated, and a
        non-empty split-off part leaves both parts strictly smaller. */
    ghost predicate SplitOk(q: P)
    {
      var (rem, sub) := split(q);
      && multiset(elems(rem)) + multiset(elems(sub)) == multiset(elems(q))
      && (|elems(sub)| != 0 ==> |elems(rem)| < |elems(q)| && |elems(sub)| < |elems(q)|)
    }

    ghost predicate Valid()
    {
      forall q :: SplitOk(q)
    }
  }

  /** The termination measure: a split that splits something off leaves both
      parts strictly smaller. */
  lemma SplitShrinks<P(!new), T>(part: Partitioning<P, T>, q: P)
    requires part.Valid()
    ensures var (rem, sub) := part.split(q);
      |part.elems(sub)| != 0 ==> |part.elems(rem)| < |part.elems(q)| && |part.elems(sub)| < |part.elems(q)|
  {
    assert part.SplitOk(q);
  }

  /** Where an activation sits in the recursion: the choices taken from the
      root, `true` for the spawned split-off part and `false` for the inline
      remainder. The scheduling oracle is keyed on it, so two activations on
      equal partitioner values may still be ordered differently. */
  type Path = seq<bool>

  /** The two halves of a split activation, with their paths, in the order the
      schedule runs them. */
  function Order<P>(childFirst: Path -> bool, at: Path, rem: P, sub: P): (P, Path, P, Path)
  {
    if childFirst(at) then (sub, at + [true], rem, at + [false])
    else (rem, at + [false], sub, at + [true])
  }

  /** What a sequential run of `internal_parallel_for` does, in order. */
  datatype Event<T> = Spawned | Joined | Applied(x: T)

  /** The base case's loop: `func` on each element, in order. */
  function Applies<T>(xs: seq<T>): (t: seq<Event<T>>)
  {
    seq(|xs|, i requires 0 <= i < |xs| => Applied(xs[i]))
  }

  /** The events of one activation on partitioner `q`. The base case iterates
      the partitioner after `split()`, i.e. the remainder. */
  ghost function Trace<P(!new), T>(part: Partitioning<P, T>, childFirst: Path -> bool, q: P, at: Path): seq<Event<T>>
    requires part.Valid()
    decreases |part.elems(q)|
  {
    var (rem, sub) := part.split(q);
    assert part.SplitOk(q);
    if |part.elems(sub)| == 0 then
      Applies(part.elems(rem))
    else if childFirst(at) then
      [Spawned] + Trace(part, childFirst, sub, at + [true]) + Trace(part, childFirst, rem, at + [false]) + [Joined]
    else
      [Spawned] + Trace(part, childFirst, rem, at + [false]) + Trace(part, childFirst, sub, at + [true]) + [Joined]
  }

  /** The elements `func` was applied to, in order. */
  function Visited<T>(t: seq<Event<T>>): seq<T>
  {
    if |t| == 0 then []
    else (if t[0].Applied? then [t[0].x] else []) + Visited(t[1..])
  }

  function Spawns<T>(t: seq<Event<T>>): nat
  {
    if |t| == 0 then 0 else (if t[0].Spawned? then 1 else 0) + Spawns(t[1..])
  }

  function Joins<T>(t: seq<Event<T>>): nat
  {
    if |t| == 0 then 0 else (if t[0].Joined? then 1 else 0) + Joins(t[1..])
  }

  /** No prefix of `t` has joined more tasks than it has spawned. */
  ghost predicate JoinsFollowSpawns<T>(t: seq<Event<T>>)
  {
    forall k :: 0 <= k <= |t| ==> Joins(t[..k]) <= Spawns(t[..k])
  }

  /** The number of base-case activations. */
  ghost function Leaves<P(!new), T>(part: Partitioning<P, T>, q: P): nat
    requires part.Valid()
    decreases |part.elems(q)|
  {
    var (rem, sub) := part.split(q);
    assert part.SplitOk(q);
    if |part.elems(sub)| == 0 then 1
    else Leaves(part, sub) + Leaves(part, rem)
  }

  lemma {:induction false} VisitedAppend<T>(a: seq<Event<T>>, b: seq<Event<T>>)
    ensures Visited(a + b) == Visited(a) + Visited(b)
    decreases |a|
  {
    if |a| == 0 {
      assert a + b == b;
    } else {
      assert (a + b)[0] == a[0];
      assert (a + b)[1..] == a[1..] + b;
      VisitedAppend(a[1..], b);
    }
  }

  lemma {:induction false} CountsAppend<T>(a: seq<Event<T>>, b: seq<Event<T>>)
    ensures Spawns(a + b) == Spawns(a) + Spawns(b)
    ensures Joins(a + b) == Joins(a) + Joins(b)
    decreases |a|
  {
    if |a| == 0 {
      assert a + b == b;
    } else {
      assert (a + b)[1..] == a[1..] + b;
      CountsAppend(a[1..], b);
    }
  }

  /** The base case's events give back exactly the elements iterated, and no
      task is spawned or joined. */
  lemma {:induction false} AppliesVisits<T>(xs: seq<T>)
    ensures Visited(Applies(xs)) == xs
    ensures Spawns(Applies(xs)) == 0 && Joins(Applies(xs)) == 0
    decreases |xs|
  {
    if |xs| != 0 {
      assert Applies(xs)[1..] == Applies(xs[1..]);
      AppliesVisits(xs[1..]);
    }
  }

  /** Coverage: `func` is applied to exactly the elements of the original
      partitioner, each as often as it occurs there. */
  lemma {:induction false} Coverage<P(!new), T>(part: Partitioning<P, T>, childFirst: Path -> bool, q: P, at: Path)
    requires part.Valid()
    ensures multiset(Visited(Trace(part, childFirst, q, at))) == multiset(part.elems(q))
    decreases |part.elems(q)|
  {
    var (rem, sub) := part.split(q);
    assert part.SplitOk(q);
    if |part.elems(sub)| == 0 {
      BaseCaseSequential(part, childFirst, q, at);
      assert multiset(part.elems(sub)) == multiset{};
    } else {
      var (first, fa, second, sa) := Order(childFirst, at, rem, sub);
      ForkTrace(part, childFirst, q, at, first, fa, second, sa);
      Coverage(part, childFirst, first, fa);
      Coverage(part, childFirst, second, sa);
    }
  }

  /** Recursion shape: every spawned task is joined, and each activation is a
      leaf or spawns exactly one task, so there is one more leaf than spawns. */
  lemma {:induction false} ForkJoinShape<P(!new), T>(part: Partitioning<P, T>, childFirst: Path -> bool, q: P, at: Path)
    requires part.Valid()
    ensures Joins(Trace(part, childFirst, q, at)) == Spawns(Trace(part, childFirst, q, at))
    ensures Leaves(part, q) == Spawns(Trace(part, childFirst, q, at)) + 1
    decreases |part.elems(q)|
  {
    var (rem, sub) := part.split(q);
    SplitShrinks(part, q);
    if |part.elems(sub)| == 0 {
      BaseCaseSequential(part, childFirst, q, at);
    } else {
      var (first, fa, second, sa) := Order(childFirst, at, rem, sub);
      ForkTrace(part, childFirst, q, at, first, fa, second, sa);
      ForkJoinShape(part, childFirst, first, fa);
      ForkJoinShape(part, childFirst, second, sa);
    }
  }

  /** Concatenating a balanced, well-ordered trace with a well-ordered one
      keeps joins behind spawns. */
  lemma JoinsFollowSpawnsAppend<T>(a: seq<Event<T>>, b: seq<Event<T>>)
    requires JoinsFollowSpawns(a) && Joins(a) == Spawns(a) && JoinsFollowSpawns(b)
    ensures JoinsFollowSpawns(a + b)
  {
    forall k | 0 <= k <= |a + b|
      ensures Joins((a + b)[..k]) <= Spawns((a + b)[..k])
    {
      if k <= |a| {
        assert (a + b)[..k] == a[..k];
      } else {
        assert (a + b)[..k] == a + b[..k - |a|];
        CountsAppend(a, b[..k - |a|]);
      }
    }
  }

  /** Wrapping a balanced, well-ordered trace in one spawn and its join keeps
      joins behind spawns. */
  lemma JoinsFollowSpawnsWrap<T>(m: seq<Event<T>>)
    requires JoinsFollowSpawns(m) && Joins(m) == Spawns(m)
    ensures JoinsFollowSpawns([Spawned] + m + [Joined])
  {
    var t := [Spawned] + m + [Joined];
    forall k | 0 <= k <= |t|
      ensures Joins(t[..k]) <= Spawns(t[..k])
    {
      if k == |t| {
        assert t[..k] == t;
        CountsAppend([Spawned], m);
        CountsAppend([Spawned] + m, [Joined]);
      } else if k > 0 {
        assert t[..k] == [Spawned] + m[..k - 1];
        CountsAppend([Spawned], m[..k - 1]);
      }
    }
  }

  /** Join discipline: no task is joined before it is spawned. */
  lemma {:induction false} JoinAfterSpawn<P(!new), T>(part: Partitioning<P, T>, childFirst: Path -> bool, q: P, at: Path)
    requires part.Valid()
    ensures JoinsFollowSpawns(Trace(part, childFirst, q, at))
    decreases |part.elems(q)|
  {
    var (rem, sub) := part.split(q);
    assert part.SplitOk(q);
    if |part.elems(sub)| == 0 {
      var xs := part.elems(rem);
      forall k | 0 <= k <= |Applies(xs)|
        ensures Joins(Applies(xs)[..k]) <= Spawns(Applies(xs)[..k])
      {
        assert Applies(xs)[..k] == Applies(xs[..k]);
        AppliesVisits(xs[..k]);
      }
    } else {
      var (first, fa, second, sa) := Order(childFirst, at, rem, sub);
      JoinAfterSpawn(part, childFirst, first, fa);
      JoinAfterSpawn(part, childFirst, second, sa);
      ForkJoinShape(part, childFirst, first, fa);
      ForkJoinShape(part, childFirst, second, sa);
      var f, s := Trace(part, childFirst, first, fa), Trace(part, childFirst, second, sa);
      assert Trace(part, childFirst, q, at) == [Spawned] + f + s + [Joined];
      JoinsFollowSpawnsAppend(f, s);
      CountsAppend(f, s);
      JoinsFollowSpawnsWrap(f + s);
      assert [Spawned] + f + s + [Joined] == [Spawned] + (f + s) + [Joined];
    }
  }

  /** A partitioner whose split leaves nothing to split off is iterated in its
      own order, with no task spawned. */
  lemma BaseCaseSequential<P(!new), T>(part: Partitioning<P, T>, childFirst: Path -> bool, q: P, at: Path)
    requires part.Valid() && |part.elems(part.split(q).1)| == 0
    ensures Visited(Trace(part, childFirst, q, at)) == part.elems(part.split(q).0)
    ensures Spawns(Trace(part, childFirst, q, at)) == 0 && Joins(Trace(part, childFirst, q, at)) == 0
  {
    AppliesVisits(part.elems(part.split(q).0));
  }

  /** An empty range: `func` is never called and no task is spawned. */
  lemma EmptyRange<P(!new), T>(part: Partitioning<P, T>, childFirst: Path -> bool, q: P, at: Path)
    requires part.Valid() && |part.elems(q)| == 0
    ensures Trace(part, childFirst, q, at) == []
  {
    var (rem, sub) := part.split(q);
    assert part.SplitOk(q);
    assert |multiset(part.elems(sub))| == 0;
    assert |multiset(part.elems(rem))| == 0;
  }

  /** The user function: its observable effect is the record of its calls. */
  class Func<T> {
    var applied: seq<T>

    constructor ()
      ensures applied == []
    {
      applied := [];
    }

    method Call(x: T)
      modifies this
      ensures applied == old(applied) + [x]
    {
      applied := applied + [x];
    }
  }

  /** The scheduler, seen only through ghost counts of the tasks spawned on it
      and of the joins on those tasks. */
  class Scheduler {
    ghost var spawned: nat
    ghost var joined: nat

    constructor ()
      ensures spawned == 0 && joined == 0
    {
      spawned, joined := 0, 0;
    }
  }

  /** The base case's loop: `func` applied to each element of `xs`, in order. */
  method ApplyEach<T>(xs: seq<T>, func: Func<T>)
    modifies func
    ensures func.applied == old(func.applied) + xs
  {
    for i := 0 to |xs|
      invariant func.applied == old(func.applied) + xs[..i]
    {
      func.Call(xs[i]);
      assert xs[..i + 1] == xs[..i] + [xs[i]];
    }
    assert xs[..|xs|] == xs;
  }

  /** `detail::internal_parallel_for`: split; in the base case apply `func` to
      every element of the remainder in order; otherwise spawn the split-off
      part, recurse inline on the remainder and join. */
  method InternalParallelFor<P(!new), T>(sched: Scheduler, part: Partitioning<P, T>, childFirst: Path -> bool, q: P, at: Path, func: Func<T>)
    requires part.Valid()
    modifies sched, func
    ensures func.applied == old(func.applied) + Visited(Trace(part, childFirst, q, at))
    ensures sched.spawned == old(sched.spawned) + Spawns(Trace(part, childFirst, q, at))
    ensures sched.joined == old(sched.joined) + Joins(Trace(part, childFirst, q, at))
    decreases |part.elems(q)|
  {
    var (rem, sub) := part.split(q);
    SplitShrinks(part, q);
    if |part.elems(sub)| == 0 {
      ApplyEach(part.elems(rem), func);
      BaseCaseSequential(part, childFirst, q, at);
      return;
    }
    // Spawn the task for `sub`; it runs to completion before the join, either
    // before or after the inline recursion on `rem`, as the schedule decides.
    var (first, fa, second, sa) := Order(childFirst, at, rem, sub);
    ForkTrace(part, childFirst, q, at, first, fa, second, sa);
    sched.spawned := sched.spawned + 1;
    InternalParallelFor(sched, part, childFirst, first, fa, func);
    InternalParallelFor(sched, part, childFirst, second, sa, func);
    sched.joined := sched.joined + 1;
  }

  /** The visits and counts of a fork-join activation are those of its two
      halves, in the order the schedule ran them, plus one spawn and one join. */
  lemma ForkTrace<P(!new), T>(part: Partitioning<P, T>, childFirst: Path -> bool, q: P, at: Path,
                              first: P, fa: Path, second: P, sa: Path)
    requires part.Valid() && |part.elems(part.split(q).1)| != 0
    requires (first, fa, second, sa) == Order(childFirst, at, part.split(q).0, part.split(q).1)
    ensures Visited(Trace(part, childFirst, q, at))
         == Visited(Trace(part, childFirst, first, fa)) + Visited(Trace(part, childFirst, second, sa))
    ensures Spawns(Trace(part, childFirst, q, at))
         == 1 + Spawns(Trace(part, childFirst, first, fa)) + Spawns(Trace(part, childFirst, second, sa))
    ensures Joins(Trace(part, childFirst, q, at))
         == Joins(Trace(part, childFirst, first, fa)) + Joins(Trace(part, childFirst, second, sa)) + 1
  {
    SplitShrinks(part, q);
    var f, s := Trace(part, childFirst, first, fa), Trace(part, childFirst, second, sa);
    assert Trace(part, childFirst, q, at) == [Spawned] + f + s + [Joined];
    ForkEvents(f, s);
  }

  /** The visits and counts of one spawn, two halves and one join. */
  lemma ForkEvents<T>(first: seq<Event<T>>, second: seq<Event<T>>)
    ensures Visited([Spawned] + first + second + [Joined]) == Visited(first) + Visited(second)
    ensures Spawns([Spawned] + first + second + [Joined]) == 1 + Spawns(first) + Spawns(second)
    ensures Joins([Spawned] + first + second + [Joined]) == Joins(first) + Joins(second) + 1
  {
    var m := first + second;
    VisitedAppend(first, second);
    CountsAppend(first, second);
    VisitedAppend(m, [Joined]);
    CountsAppend(m, [Joined]);
    assert Visited<T>([Joined]) == [] && Spawns<T>([Joined]) == 0 && Joins<T>([Joined]) == 1;
    var t := [Spawned] + (m + [Joined]);
    assert t[1..] == m + [Joined];
    assert [Spawned] + first + second + [Joined] == t;
  }

  /** `parallel_for(sched, range, func)`: `internal_parallel_for` on
      `to_partitioner(range)`, whose only contract here is that it lists the
      range's elements in order. The run is the root activation's trace, so
      every element is visited once per occurrence, and every spawned task has
      been joined on return. */
  method ParallelForRange<P(!new), T>(sched: Scheduler, range: seq<T>, toPartitioner: seq<T> -> P,
                                part: Partitioning<P, T>, childFirst: Path -> bool, func: Func<T>)
    requires part.Valid() && part.elems(toPartitioner(range)) == range
    modifies sched, func
    ensures func.applied == old(func.applied) + Visited(Trace(part, childFirst, toPartitioner(range), []))
    ensures sched.spawned == old(sched.spawned) + Spawns(Trace(part, childFirst, toPartitioner(range), []))
    ensures sched.joined == old(sched.joined) + Joins(Trace(part, childFirst, toPartitioner(range), []))
    ensures multiset(func.applied) == multiset(old(func.applied)) + multiset(range)
    ensures sched.joined - old(sched.joined) == sched.spawned - old(sched.spawned)
  {
    InternalParallelFor(sched, part, childFirst, toPartitioner(range), [], func);
    Coverage(part, childFirst, toPartitioner(range), []);
    ForkJoinShape(part, childFirst, toPartitioner(range), []);
  }

  /** `parallel_for(sched, {a, b, ...}, func)`: the list is wrapped with
      `make_range(begin, end)`, which denotes the same element sequence, so
      the run is that of `parallel_for` on the list. */
  method ParallelForList<P(!new), T>(sched: Scheduler, list: seq<T>, toPartitioner: seq<T> -> P,
                               part: Partitioning<P, T>, childFirst: Path -> bool, func: Func<T>)
    requires part.Valid() && part.elems(toPartitioner(list)) == list
    modifies sched, func
    ensures func.applied == old(func.applied) + Visited(Trace(part, childFirst, toPartitioner(list), []))
    ensures sched.spawned == old(sched.spawned) + Spawns(Trace(part, childFirst, toPartitioner(list), []))
    ensures sched.joined == old(sched.joined) + Joins(Trace(part, childFirst, toPartitioner(list), []))
    ensures multiset(func.applied) == multiset(old(func.applied)) + multiset(list)
    ensures sched.joined - old(sched.joined) == sched.spawned - old(sched.spawned)
  {
    ParallelForRange(sched, list, toPartitioner, part, childFirst, func);
  }
}
