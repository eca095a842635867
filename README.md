# async++ reference counting and recursive parallel_for, in Dafny

This project models two primitives of the async++ task library and proves
their central properties.

- **Intrusive reference counting** (`ref_count.dfy`, module `RefCount`).
  `RefObj` is `ref_count_base`: a counter (a plain `nat` in place of the atomic
  `size_t`) with `add_ref`, `remove_ref`, `add_ref_unlocked` and
  `is_unique_ref`, and the source's default of 1 for the initial count and
  for `n`. The deleter is a ghost flag `deleted`. `Handle` is
  `ref_count_ptr`: one nullable field `p` and all its constructors,
  assignments, destructor, `get`, `release`, `operator bool` and comparisons.
  Ghost bookkeeping on each object records `owners`, the live handles that
  point at it, and `raw`, the references held outside any handle: the
  constructor's initial count and whatever `release()` hands out. The
  invariant `RefObj.Balanced()` says that the count is `|owners| + raw`, that
  every owner is live and points at the object, and that a deleted object has
  count zero. Every operation preserves it. So the deleter runs exactly once,
  at the `remove_ref` that takes the total to zero, and never on an object
  that a live handle still owns.
  Copy and move assignment retire the old reference and clear `p` before
  reading `other.p`. Assigning a handle to itself (`h = h` or
  `h = std::move(h)`) therefore leaves it empty and gives back its reference,
  which deletes the object if that was the last one. The contracts of
  `CopyAssign` and `MoveAssign` state this, and `SelfCopyAssign` exhibits it.
  `CopyAssignSafe` is the corrected copy assignment (see "## Findings"): it
  takes the new reference before giving back the old one, and `h = h`
  changes nothing.
- **Recursive fork-join `internal_parallel_for`** (`parallel_for.dfy`, module
  `ParallelFor`). The partitioner is abstract. A `Partitioning` gives each
  partitioner value's element sequence and its `split()`, which yields the
  remainder (what the partitioner holds afterwards) and the split-off part.
  The split contract `SplitOk` says that no element is lost or duplicated and
  that a non-empty split-off part leaves both parts strictly smaller; this is
  also the termination measure. The function `Trace` gives the events of a
  sequential run: `func` applications, spawns and joins. A spawned child runs
  to completion before its join. Whether it runs before or after the inline
  half is decided by a scheduling oracle `childFirst`. The oracle is asked at
  every activation and is keyed on the activation's `Path`, its position in
  the recursion, so two activations on equal partitioner values can be
  ordered differently. The lemmas therefore hold for every schedule that runs
  each spawned child as one block, before or after the inline half; real
  interleaving of the two halves is not modelled. `InternalParallelFor` is the
  recursive method.
  `func` is a `Func` object that records the elements it is applied to, and the
  scheduler keeps ghost counts of spawns and joins.
  `halving_range.dfy` (module `HalvingRange`) gives one concrete partitioner:
  integer intervals halved at the midpoint above a grain size. `EightByTwo`
  and `CollectEight` prove that a call on 0..7 with grain size 2 takes three
  spawns, three joins and four leaves, and visits each integer once.

## Model

| member | source | states |
|---|---|---|
| RefCount.RefObj.constructor | include/async++/ref_count.h:22-24 | the count starts at the given value; the creator holds that many references, no handle owns one, and the object is not deleted |
| RefCount.RefObj.AddRef | include/async++/ref_count.h:26-29 | the count rises by exactly `n`, the caller holds the new references, and the balance is kept |
| RefCount.RefObj.RemoveRef | include/async++/ref_count.h:30-36 | the count falls by exactly `n`; the object is deleted iff the count before the decrement equalled `n`, and otherwise stays alive; balance kept |
| RefCount.RefObj.AddRefUnlocked | include/async++/ref_count.h:37-40 | the count rises by exactly one; balance kept |
| RefCount.RefObj.IsUniqueRef | include/async++/ref_count.h:41-44 | true iff the count is exactly one |
| RefCount.SoleOwner | include/async++/ref_count.h:41-44 | a unique count seen by an owning handle means that handle is the only owner and no raw reference exists |
| RefCount.TwoOwners | include/async++/ref_count.h:80-100 | two distinct handles owning one object keep its count at two or more, so retiring one of them cannot delete it |
| RefCount.Handle.constructor | include/async++/ref_count.h:58-61 | the default and `nullptr` constructors give an empty, valid handle |
| RefCount.Handle.Adopt | include/async++/ref_count.h:53-56 | adopting a raw pointer leaves the count unchanged and turns one raw reference into this handle's |
| RefCount.Handle.Copy | include/async++/ref_count.h:62-67 | copying a non-empty handle adds exactly one reference, owned by the copy; copying an empty one changes nothing |
| RefCount.Handle.Move | include/async++/ref_count.h:68-72 | moving passes the reference to the new handle, empties the source, and leaves the count unchanged |
| RefCount.Handle.DropRef | include/async++/ref_count.h:75-76 | `p->remove_ref()` retires exactly this handle's reference; deletion iff it was the last one |
| RefCount.Handle.TakeRef | include/async++/ref_count.h:87-88 | `p->add_ref()` gives the handle exactly one new reference |
| RefCount.Handle.AssignNull | include/async++/ref_count.h:73-79 | `= nullptr` retires one reference if the handle was non-empty, nothing otherwise, and leaves it empty |
| RefCount.Handle.CopyAssign | include/async++/ref_count.h:80-90 | self-assignment empties the handle with one reference retired; otherwise the old referent loses one reference and the new one gains one, and sharing one referent changes nothing |
| RefCount.Handle.CopyAssignSafe | include/async++/ref_count.h:80-90 | corrected copy assignment: the handle ends on `other`'s referent; a different old referent loses one reference and the new one gains one; on the same referent, `h = h` included, nothing changes |
| RefCount.Handle.MoveAssign | include/async++/ref_count.h:91-100 | self-assignment empties the handle with one reference retired; otherwise the old reference is retired, `other`'s passes over with no increment, and `other` is emptied |
| RefCount.Handle.StealFrom | include/async++/ref_count.h:97-98 | on an empty handle, `p = other.p; other.p = nullptr` moves `other`'s reference over without touching the count |
| RefCount.Handle.Destroy | include/async++/ref_count.h:101-105 | the destructor retires exactly one reference if non-empty, nothing otherwise |
| RefCount.Handle.Get | include/async++/ref_count.h:115-118 | returns the pointer, which a valid handle keeps alive with a count of at least one |
| RefCount.Handle.Deref | include/async++/ref_count.h:107-114 | on a non-empty valid handle, the referent is alive |
| RefCount.Handle.Release | include/async++/ref_count.h:119-124 | returns the pointer, empties the handle, leaves the count unchanged, and moves the reference to the caller as a raw one |
| RefCount.Handle.IsSet | include/async++/ref_count.h:126-129 | `operator bool` and `!= nullptr` are true iff the pointer is non-null, in which case a valid handle's referent is alive |
| RefCount.Handle.IsNull | include/async++/ref_count.h:138-153 | `== nullptr` in either order is the negation of `operator bool` |
| RefCount.Same | include/async++/ref_count.h:130-137 | handle equality is pointer identity (`!=` is its negation) |
| RefCount.SameMeansCoOwners | include/async++/ref_count.h:130-137 | for valid handles, equal pointers is the same as co-owning one object |
| RefCount.Lifecycle | include/async++/ref_count.h:53-105 | adopt a fresh object, copy, clear, destroy: the count goes 1, 2, 1, 0 and the object is deleted only at the end |
| RefCount.SelfCopyAssign | include/async++/ref_count.h:80-90 | `h = h` on the only handle of an object deletes it and leaves `h` empty |
| RefCount.SafeSelfCopyAssign | include/async++/ref_count.h:80-90 | the same `h = h` through the corrected copy assignment keeps the object alive with count 1 and `h` its only owner |
| ParallelFor.SplitShrinks | include/async++/parallel_for.h:14-25 | a non-empty split-off part leaves both halves strictly smaller, so the recursion terminates |
| ParallelFor.Trace | include/async++/parallel_for.h:10-27 | the events of one activation: with nothing split off, `func` on the post-split remainder in order; otherwise one spawn, both halves in the order the oracle picks at this activation's path, then one join |
| ParallelFor.ApplyEach | include/async++/parallel_for.h:16-17 | the base-case loop applies `func` to every element in iteration order, and to nothing else |
| ParallelFor.InternalParallelFor | include/async++/parallel_for.h:10-27 | `func` sees exactly the visits of `Trace`, and the scheduler's spawn and join counts grow by the spawns and joins of `Trace` |
| ParallelFor.AppliesVisits | include/async++/parallel_for.h:16-17 | the base case's events give back exactly the iterated elements and hold no spawn or join |
| ParallelFor.BaseCaseSequential | include/async++/parallel_for.h:14-19 | an empty split-off part: `func` is applied to the partitioner's elements in its own order and nothing is spawned or joined |
| ParallelFor.EmptyRange | include/async++/parallel_for.h:14-18 | an empty range: `func` is never called and nothing is spawned |
| ParallelFor.ForkTrace | include/async++/parallel_for.h:21-26 | a split activation's visits are its two halves' visits in schedule order, with exactly one spawn and one join of its own |
| ParallelFor.ForkEvents | include/async++/parallel_for.h:22-26 | one spawn, two halves and one join add one to both counts and contribute no visit of their own |
| ParallelFor.Coverage | include/async++/parallel_for.h:14-26 | the multiset of elements `func` is applied to equals the multiset of the original partitioner |
| ParallelFor.ForkJoinShape | include/async++/parallel_for.h:14-26 | joins equal spawns, and leaves equal spawns plus one |
| ParallelFor.JoinAfterSpawn | include/async++/parallel_for.h:22-26 | in every prefix of a run, joins never outnumber spawns |
| ParallelFor.VisitedAppend | include/async++/parallel_for.h:22-26 | visits of consecutive event runs concatenate |
| ParallelFor.CountsAppend | include/async++/parallel_for.h:22-26 | spawn and join counts of consecutive event runs add up |
| ParallelFor.JoinsFollowSpawnsAppend | include/async++/parallel_for.h:22-26 | a balanced run followed by a well-ordered one keeps joins behind spawns |
| ParallelFor.JoinsFollowSpawnsWrap | include/async++/parallel_for.h:22-26 | wrapping a balanced run in a spawn and its join keeps joins behind spawns |
| ParallelFor.ParallelForRange | include/async++/parallel_for.h:31-36 | `parallel_for(sched, range, func)` is the root activation on `to_partitioner(range)`: visits and spawn and join counts are those of its `Trace`; `func` sees each element of the range once per occurrence, and every spawned task is joined |
| ParallelFor.ParallelForList | include/async++/parallel_for.h:45-50 | the initializer-list form is `parallel_for` on the list: the same visit sequence and spawn and join counts, each element once per occurrence, every spawned task joined |
| HalvingRange.ElemsConcat | include/async++/parallel_for.h:14 | two adjacent intervals list exactly the integers of their union |
| HalvingRange.HalvingValid | include/async++/parallel_for.h:14 | midpoint halving with a grain size of at least one meets the split contract |
| HalvingRange.EightHasFourLeaves | include/async++/parallel_for.h:14-26 | halving with grain size 2 meets the split contract, and 0..7 makes four leaves |
| HalvingRange.EightByTwo | include/async++/parallel_for.h:14-26 | 0..7 under grain size 2: four leaves, three spawns, three joins, and each integer visited once, under every schedule |
| HalvingRange.CollectEight | include/async++/parallel_for.h:10-27 | running the method on 0..7 with grain size 2 records the multiset {0..7} and three spawns and three joins |

## Left out

- Memory orders and fences (`memory_order_relaxed`, `release`, `acquire`, `atomic_thread_fence`) and real thread interleaving. A sequential model cannot express them, so the atomic counter is a plain `nat`.
- `size_t` wrap-around on over-decrement: undefined behaviour that callers must avoid; the precondition of `RemoveRef` excludes it.
- The exclusive access that `add_ref_unlocked` demands. The model is sequential, so it has no concurrent callers, and no precondition states the demand.
- RefCount.RefObj.RemoveRef: requires the caller to hold `n` raw references (`n <= raw`), not only `n <= count`. Giving back a reference that a handle still owns would leave that handle dangling, and the ownership balance rules it out.
- RefCount.RefObj.AddRef and RefCount.RefObj.AddRefUnlocked: require the object not to be deleted, because the caller must already hold a reference.
- RefCount.RefObj.IsUniqueRef: the `std::memory_order` argument is dropped, since memory order is not modelled.
- The `Deleter` policy and `default_deleter::do_delete`: deletion sets the ghost flag `deleted` and frees nothing.
- RefCount.Handle.CopyAssign: deletion only sets a flag and no object holds handles, so the model cannot show that retiring the old reference before reading `other.p` (ref_count.h:82-86) reads freed memory when `other` lives inside the old referent (`h = h->next` on its last reference). Its `p == old(other.p)` clause, and the claim that nothing a live handle owns is deleted, hold only under that abstraction. `CopyAssignSafe` reads `other.p` first and does not have this hazard.
- RefCount.Handle.MoveAssign: the same abstraction hides the same read after deletion in move assignment (ref_count.h:93-97).
- RefCount.Handle.Destroy: C++ destroys the handle object; the model marks it dead (ghost `live`) and leaves `p` as it was.
- RefCount.Handle.Deref: `operator*` and `operator->` are modelled only as giving the referent, behind a non-null precondition.
- `local_spawn`, `t.get()` and the scheduler's queueing and stealing. A spawn followed by its join is a sequential call, and the oracle `childFirst` decides whether the child runs before or after the inline half.
- Exceptions thrown by `func`, and how the task handle captures and rethrows them.
- The internals of `to_partitioner` and `make_range`. `to_partitioner` is a parameter whose only contract is that the partitioner lists the range's elements in order. `make_range` over an initializer list denotes the list's own element sequence.
- The two default-scheduler overloads (`parallel_for(range, func)` and `parallel_for({...}, func)`). They pass the process-wide `default_scheduler()` to the explicit forms. A global scheduler object has no counterpart here, so those forms are what `ParallelFor.ParallelForRange` and `ParallelFor.ParallelForList` model.
- The forwarding of each element's value category (`std::forward`): `func` receives the element's value.
- Concrete partitioners other than the midpoint-halving example. The split contract is stated abstractly, and the example partitioner shows one way to meet it.

## Findings

| source | as written | input that shows it | evidently intended | confidence | as-written member | corrected member |
|---|---|---|---|---|---|---|
| include/async++/ref_count.h:80-90 | copy assignment gives back the old reference and clears `p` before it reads `other.p` | `h = h` where `h` is the only handle of an object with count 1: the object is deleted and `h` is left empty | self-assignment leaves `h` and the count unchanged, as in `boost::intrusive_ptr`, which line 47 names as the model | medium; not executed | RefCount.SelfCopyAssign | RefCount.Handle.CopyAssignSafe |
