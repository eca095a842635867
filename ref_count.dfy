/** Intrusive reference counting: `ref_count_base` (the counted object) and
    `ref_count_ptr` (the owning handle) of include/async++/ref_count.h.

    The atomic counter is a plain `nat`; memory orders and fences are not
    modelled. The deleter is modelled by the ghost flag `deleted`. The ghost
    bookkeeping `owners` (the live handles that point at the object) and `raw`
    (references held outside any handle: the constructor's initial count and
    whatever `release()` hands out) makes the ownership balance an invariant,
    `RefObj.Balanced()`, that every operation below preserves. */
module RefCount {

  /** A reference-counted object (`ref_count_base`). */
  class RefObj {
    var count: nat
    ghost var deleted: bool
    ghost var raw: nat
    ghost var owners: set<Handle>

    /** Ownership balance: the count is the number of live handles that point
        here plus the references held raw, and the object is deleted only once
        that total has reached zero. */
    ghost predicate Balanced()
      reads this, owners
    {
      && count == |owners| + raw
      && (deleted ==> count == 0)
      && forall h :: h in owners ==> h.live && h.p == this
    }

    /** `ref_count_base(count = 1)`: the creator holds `initial` raw references. */
    constructor (initial: nat := 1)
      ensures count == initial && !deleted
      ensures raw == initial && owners == {}
      ensures Balanced()
    {
      count := initial;
      deleted := false;
      raw := initial;
      owners := {};
    }

    /** `add_ref(n)`: the caller, already holding a reference, takes `n` more. */
    method AddRef(n: nat := 1)
      requires Balanced() && !deleted
      modifies this`count, this`raw
      ensures count == old(count) + n
      ensures raw == old(raw) + n
      ensures Balanced()
    {
      count := count + n;
      raw := raw + n;
    }

    /** `add_ref_unlocked()`: one more reference, taken under exclusive access. */
    method AddRefUnlocked()
      requires Balanced() && !deleted
      modifies this`count, this`raw
      ensures count == old(count) + 1
      ensures raw == old(raw) + 1
      ensures Balanced()
    {
      var current := count;
      count := current + 1;
      raw := raw + 1;
    }

    /** `remove_ref(n)`: gives back `n` references the caller holds; the deleter
        runs exactly when the count seen before the decrement equals `n`. */
    method RemoveRef(n: nat := 1)
      requires Balanced() && !deleted && n <= raw
      modifies this`count, this`raw, this`deleted
      ensures count == old(count) - n
      ensures raw == old(raw) - n
      ensures deleted <==> old(count) == n
      ensures Balanced()
    {
      var before := count;
      count := count - n;
      raw := raw - n;
      if before == n {
        deleted := true;
      }
    }

    /** `is_unique_ref(order)`: whether the count is exactly one. */
    method IsUniqueRef() returns (unique: bool)
      ensures unique <==> count == 1
    {
      unique := count == 1;
    }
  }

  /** A unique count means the one handle that asks is the sole owner: no other
      handle and no raw reference can reach the object. */
  lemma SoleOwner(o: RefObj, h: Handle)
    requires o.Balanced() && h in o.owners && o.count == 1
    ensures o.owners == {h} && o.raw == 0
  {
    assert |o.owners - {h}| == |o.owners| - 1;
    assert o.owners - {h} == {};
  }

  /** Two distinct owners mean the count is at least two, so dropping one of
      them cannot delete the object. */
  lemma TwoOwners(o: RefObj, a: Handle, b: Handle)
    requires o.Balanced() && a in o.owners && b in o.owners && a != b
    ensures o.count >= 2 && !o.deleted
  {
    assert b in o.owners - {a};
    assert |o.owners - {a}| == |o.owners| - 1;
  }

  /** Handle `h` gave one reference back to `o` through `remove_ref`. */
  twostate predicate RetiredBy(o: RefObj, h: Handle)
    reads o
  {
    && o.count == old(o.count) - 1
    && o.raw == old(o.raw)
    && o.owners == old(o.owners) - {h}
    && (o.deleted <==> old(o.count) == 1)
  }

  /** Handle `h` took one new reference to `o` through `add_ref`. */
  twostate predicate GainedBy(o: RefObj, new h: Handle)
    reads o
  {
    && o.count == old(o.count) + 1
    && o.raw == old(o.raw)
    && o.owners == old(o.owners) + {h}
    && o.deleted == old(o.deleted)
  }

  /** The reference owned by `src` now belongs to `dst`; the count is untouched. */
  twostate predicate MovedTo(o: RefObj, src: Handle, new dst: Handle)
    reads o
  {
    && o.count == old(o.count)
    && o.raw == old(o.raw)
    && o.owners == old(o.owners) - {src} + {dst}
    && o.deleted == old(o.deleted)
  }

  /** Nothing about `o`'s references changed. */
  twostate predicate Kept(o: RefObj)
    reads o
  {
    && o.count == old(o.count)
    && o.raw == old(o.raw)
    && o.owners == old(o.owners)
    && o.deleted == old(o.deleted)
  }

  /** The owning handle (`ref_count_ptr`). `live` is false once the handle has
      been destroyed. */
  class Handle {
    var p: RefObj?
    ghost var live: bool

    /** A live handle that is not empty owns exactly one of its referent's
        references, and that referent is balanced. */
    ghost predicate Valid()
      reads this, p, if p != null then p.owners else {}
    {
      live && (p != null ==> this in p.owners && p.Balanced())
    }

    /** `ref_count_ptr()` and `ref_count_ptr(nullptr)`: an empty handle. */
    constructor ()
      ensures Valid() && p == null
    {
      p := null;
      live := true;
    }

    /** `explicit ref_count_ptr(T* t)`: adopts a reference the caller already
        holds raw, without touching the count. */
    constructor Adopt(t: RefObj?)
      requires t != null ==> t.Balanced() && t.raw > 0
      modifies t
      ensures Valid() && p == t
      ensures t != null ==> t.count == old(t.count) && !t.deleted
      ensures t != null ==> t.raw == old(t.raw) - 1 && t.owners == old(t.owners) + {this}
    {
      p := t;
      live := true;
      new;
      if t != null {
        t.owners := t.owners + {this};
        t.raw := t.raw - 1;
      }
    }

    /** Copy construction: a non-empty source gives its referent one more
        reference, owned by the new handle; an empty source changes nothing. */
    constructor Copy(other: Handle)
      requires other.Valid()
      modifies other.p
      ensures Valid() && other.Valid() && p == other.p
      ensures other.p != null ==> GainedBy(other.p, this)
    {
      p := other.p;
      live := true;
      new;
      if p != null {
        TakeRef();
      }
    }

    /** Move construction: the reference passes from `other` to the new handle,
        `other` becomes empty and the count is untouched. */
    constructor Move(other: Handle)
      requires other.Valid()
      modifies other, other.p
      ensures Valid() && other.Valid()
      ensures p == old(other.p) && other.p == null
      ensures p != null ==> MovedTo(p, other, this)
    {
      p := other.p;
      live := true;
      new;
      other.p := null;
      if p != null {
        p.owners := p.owners - {other} + {this};
      }
    }

    /** `p->remove_ref()` on the reference this handle owns. After it the handle
        no longer owns anything, though `p` is not yet cleared. */
    method DropRef()
      requires Valid() && p != null
      modifies p
      ensures RetiredBy(p, this) && p.Balanced()
    {
      p.owners := p.owners - {this};
      p.raw := p.raw + 1;
      p.RemoveRef();
    }

    /** `p->add_ref()` for a handle that has just been pointed at `p`. */
    method TakeRef()
      requires live && p != null && p.Balanced() && !p.deleted && this !in p.owners
      modifies p
      ensures GainedBy(p, this) && p.Balanced() && Valid()
    {
      p.AddRef();
      p.owners := p.owners + {this};
      p.raw := p.raw - 1;
    }

    /** `operator=(nullptr)`: retires the owned reference, if any. */
    method AssignNull()
      requires Valid()
      modifies this, p
      ensures Valid() && p == null
      ensures old(p) != null ==> RetiredBy(old(p), this) && old(p).Balanced()
    {
      if p != null {
        DropRef();
      }
      p := null;
    }

    /** Copy assignment. The old reference is retired and `p` cleared BEFORE
        `other.p` is read, so `h = h` empties `h` and gives back its reference
        (deleting the object if that was the last one). Otherwise the handle
        ends up sharing `other`'s referent with one more reference on it. */
    method CopyAssign(other: Handle)
      requires Valid() && other.Valid()
      modifies this, p, other.p
      ensures Valid() && other.Valid()
      ensures other == this ==> p == null
      ensures other == this && old(p) != null ==> RetiredBy(old(p), this) && old(p).Balanced()
      ensures other != this ==> p == old(other.p)
      ensures other != this && old(p) != null && old(p) != p ==> RetiredBy(old(p), this) && old(p).Balanced()
      ensures other != this && p != null && old(p) != p ==> GainedBy(p, this)
      ensures other != this && p != null && old(p) == p ==> Kept(p)
    {
      if p != null {
        if other != this && other.p == p {
          TwoOwners(p, this, other);
        }
        DropRef();
        p := null;
      }
      p := other.p;
      if p != null {
        TakeRef();
        assert old(p) == p ==> p.owners == old(p.owners);
      }
    }

    /** Copy assignment that takes the new reference before giving back the
        old one (copy, then swap, as `boost::intrusive_ptr` does). `other.p`
        is read before anything is retired, and `h = h` leaves `h` and the
        count as they were. */
    method CopyAssignSafe(other: Handle)
      requires Valid() && other.Valid()
      modifies this, p, other.p
      ensures Valid() && other.Valid()
      ensures p == old(other.p)
      ensures old(p) != null && old(p) != p ==> RetiredBy(old(p), this) && old(p).Balanced()
      ensures p != null && old(p) != p ==> GainedBy(p, this)
      ensures p != null && old(p) == p ==> Kept(p)
    {
      var next := other.p;
      if next == p {
        // The temporary copy's reference is taken and given straight back.
        if next != null {
          next.AddRef();
          next.RemoveRef();
        }
      } else {
        Rebind(next);
      }
    }

    /** The body of `CopyAssignSafe` for a different referent: one new
        reference on `next`, owned by this handle, and only then the old
        reference given back. */
    method Rebind(next: RefObj?)
      requires Valid() && next != p
      requires next != null ==> next.Balanced() && !next.deleted
      modifies this, p, next
      ensures Valid() && p == next
      ensures old(p) != null ==> RetiredBy(old(p), this) && old(p).Balanced()
      ensures next != null ==> GainedBy(next, this)
    {
      var prev := p;
      if next != null {
        next.AddRef();
        next.owners := next.owners + {this};
        next.raw := next.raw - 1;
      }
      p := next;
      if prev != null {
        prev.owners := prev.owners - {this};
        prev.raw := prev.raw + 1;
        prev.RemoveRef();
      }
    }

    /** Move assignment. The old reference is retired first, then the handle
        takes `other`'s reference and `other` is emptied, so `h = move(h)` also
        empties `h` and gives back its reference. */
    method MoveAssign(other: Handle)
      requires Valid() && other.Valid()
      modifies this, p, other, other.p
      ensures Valid() && other.Valid()
      ensures other == this ==> p == null
      ensures other == this && old(p) != null ==> RetiredBy(old(p), this) && old(p).Balanced()
      ensures other != this ==> p == old(other.p) && other.p == null
      ensures other != this && old(p) != null && old(p) != p ==> RetiredBy(old(p), this) && old(p).Balanced()
      ensures other != this && p != null && old(p) != p ==> MovedTo(p, other, this)
      ensures other != this && p != null && old(p) == p ==> RetiredBy(p, other) && !p.deleted
    {
      if p != null && other != this && other.p == p {
        TwoOwners(p, this, other);
      }
      AssignNull();
      StealFrom(other);
    }

    /** The second half of move assignment, on a handle already emptied:
        `p = other.p; other.p = nullptr;`. */
    method StealFrom(other: Handle)
      requires Valid() && other.Valid() && p == null
      modifies this, other, other.p
      ensures Valid() && other.Valid() && other.p == null
      ensures other == this ==> p == null
      ensures other != this ==> p == old(other.p)
      ensures other != this && p != null ==> MovedTo(p, other, this)
    {
      p := other.p;
      other.p := null;
      if p != null {
        p.owners := p.owners - {other} + {this};
      }
    }

    /** `~ref_count_ptr()`: retires the owned reference, if any; the handle is
        dead afterwards. */
    method Destroy()
      requires Valid()
      modifies this, p
      ensures !live && p == old(p)
      ensures p != null ==> RetiredBy(p, this) && p.Balanced()
    {
      if p != null {
        DropRef();
      }
      live := false;
    }

    /** `release()`: the reference passes to the caller as a raw one; the
        handle becomes empty and the count is untouched. */
    method Release() returns (out: RefObj?)
      requires Valid()
      modifies this, p
      ensures Valid() && p == null && out == old(p)
      ensures out != null ==> out.Balanced() && !out.deleted
      ensures out != null ==> out.count == old(out.count) && out.raw == old(out.raw) + 1
      ensures out != null ==> out.owners == old(out.owners) - {this}
    {
      out := p;
      if out != null {
        out.owners := out.owners - {this};
        out.raw := out.raw + 1;
      }
      p := null;
    }

    /** `get()`: the referent, which a valid handle keeps alive. */
    function Get(): (r: RefObj?)
      reads this, p, if p != null then p.owners else {}
      ensures r == p
      ensures r != null && Valid() ==> !r.deleted && r.count >= 1
    {
      p
    }

    /** `operator*` and `operator->`: only for a non-empty handle. */
    function Deref(): (r: RefObj)
      requires Valid() && p != null
      reads this, p, p.owners
      ensures r == p && !r.deleted && r.count >= 1
    {
      p
    }

    /** `operator bool` and `h != nullptr` (either order). */
    function IsSet(): (b: bool)
      reads this, p, if p != null then p.owners else {}
      ensures b <==> p != null
      ensures b && Valid() ==> this in p.owners && !p.deleted
    {
      p != null
    }

    /** `h == nullptr` (either order). */
    function IsNull(): (b: bool)
      reads this
      ensures b <==> !IsSet()
    {
      p == null
    }
  }

  /** `a == b` on handles (and `a != b` as its negation): pointer identity. */
  function Same(a: Handle, b: Handle): (r: bool)
    reads a, b
    ensures r <==> a.p == b.p
  {
    a.p == b.p
  }

  /** For two valid handles, one non-empty, identity of pointers is the same
      thing as sharing ownership of one object. */
  lemma SameMeansCoOwners(a: Handle, b: Handle)
    requires a.Valid() && b.Valid() && a.p != null
    ensures Same(a, b) <==> b in a.p.owners
  {
  }

  /** A handle built from a fresh object (count 1), copied, cleared and
      destroyed: the count goes 1, 2, 1, 0 and the object is deleted only at
      the last step. */
  method Lifecycle() returns (o: RefObj)
    ensures o.count == 0 && o.deleted && o.owners == {} && o.raw == 0
  {
    o := new RefObj();
    var h1 := new Handle.Adopt(o);
    assert o.count == 1;
    var h2 := new Handle.Copy(h1);
    assert o.count == 2;
    h1.AssignNull();
    assert o.count == 1 && !o.deleted;
    h2.Destroy();
  }

  /** Copy-assigning the only handle of an object to itself deletes the
      object and leaves the handle empty. */
  method SelfCopyAssign() returns (o: RefObj, h: Handle)
    ensures h.Valid() && h.p == null
    ensures o.deleted && o.count == 0
  {
    o := new RefObj();
    h := new Handle.Adopt(o);
    h.CopyAssign(h);
  }

  /** The same self-assignment through `CopyAssignSafe` changes nothing. */
  method SafeSelfCopyAssign() returns (o: RefObj, h: Handle)
    ensures h.Valid() && h.p == o
    ensures !o.deleted && o.count == 1 && o.owners == {h}
  {
    o := new RefObj();
    h := new Handle.Adopt(o);
    h.CopyAssignSafe(h);
  }
}
