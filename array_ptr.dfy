/**
 * The owned buffer: a handle that is either null or refers to one heap block
 * of `T` elements. Every operation reads or reassigns the single field `raw`.
 * Heap management (`new[]` in the sized constructor is modelled as allocation,
 * `delete[]` in the destructor is not modelled) is outside Dafny's reach.
 */
module ArrayPtrs {

  class ArrayPtr<T(0)> {
    /** The raw handle: null, or the block this instance owns. */
    var raw: array?<T>

    /** Default construction holds the null handle. */
    constructor ()
      ensures raw == null
    {
      raw := null;
    }

    /**
     * Allocates a block of exactly n elements; n == 0 keeps the null handle.
     * The element values are whatever `new T[n]` produces: callers overwrite them.
     */
    constructor Sized(n: nat)
      ensures n == 0 ==> raw == null
      ensures n > 0 ==> raw != null && fresh(raw) && raw.Length == n
    {
      raw := null;
      if n > 0 {
        raw := new T[n];
      }
    }

    /** Adopts a handle produced elsewhere (or null). */
    constructor FromRaw(p: array?<T>)
      ensures raw == p
    {
      raw := p;
    }

    /**
     * The move constructor: the new instance starts null and exchanges its
     * handle with the source, so the source ends up null.
     */
    constructor Move(other: ArrayPtr<T>)
      modifies other
      ensures raw == old(other.raw)
      ensures other.raw == null
    {
      var previous: array?<T> := null;  // the default member value of raw
      raw := other.raw;
      new;
      other.raw := previous;
    }

    /** Gives up ownership: returns the handle held until now and nulls the field. */
    method Release() returns (p: array?<T>)
      modifies this
      ensures p == old(raw)
      ensures raw == null
    {
      p := raw;
      raw := null;
    }

    /** The raw handle, without giving up ownership. */
    function Get(): (p: array?<T>)
      reads this
      ensures p == raw
    {
      raw
    }

    /** Adopts p, overwriting the handle held until now (nothing is freed). */
    method SetPtr(p: array?<T>)
      modifies this
      ensures raw == p
    {
      raw := p;
    }

    /** Exchanges the handles of the two instances. */
    method Swap(other: ArrayPtr<T>)
      modifies this, other
      ensures raw == old(other.raw)
      ensures other.raw == old(raw)
    {
      raw, other.raw := other.raw, raw;
    }

    /** The boolean conversion: true exactly when the handle is non-null. */
    predicate AsBool()
      reads this
      ensures AsBool() <==> raw != null
    {
      if raw == null then false else true
    }

    /**
     * Unchecked element read: the index must lie inside the block, which the
     * source does not check, so it is the caller's obligation.
     */
    function Index(index: nat): (x: T)
      reads this, raw
      requires raw != null && index < raw.Length
      ensures x == raw[index]
    {
      raw[index]
    }

    /** Unchecked element write, through the reference that indexing returns. */
    method SetIndex(index: nat, x: T)
      requires raw != null && index < raw.Length
      modifies raw
      ensures raw[..] == old(raw[..])[index := x]
    {
      raw[index] := x;
    }
  }

  /** Release returns the adopted handle, and a second Release returns null. */
  method ReleaseTwice<T(0)>(p: array?<T>) returns (first: array?<T>, second: array?<T>, held: bool)
    ensures first == p
    ensures second == null
    ensures !held
  {
    var h := new ArrayPtr.FromRaw(p);
    first := h.Release();
    second := h.Release();
    held := h.AsBool();
  }

  /** A default-constructed instance converts to false; a sized one with n > 0 to true. */
  method ConstructedTruth<T(0)>(n: nat) returns (empty: bool, sized: bool, length: nat)
    ensures !empty
    ensures sized <==> n > 0
    ensures sized ==> length == n
  {
    var e := new ArrayPtr<T>();
    empty := e.AsBool();
    var s := new ArrayPtr<T>.Sized(n);
    sized := s.AsBool();
    length := if s.raw == null then 0 else s.raw.Length;
  }

  /** SetPtr then Get returns exactly the adopted handle; Release then hands it back. */
  method AdoptThenRelease<T(0)>(p: array?<T>, q: array?<T>) returns (got: array?<T>, released: array?<T>)
    ensures got == q
    ensures released == q
  {
    var h := new ArrayPtr.FromRaw(p);
    h.SetPtr(q);
    got := h.Get();
    released := h.Release();
  }

  /** Moving out of an instance leaves it null and the new instance with its handle. */
  method MoveLeavesSourceNull<T(0)>(p: array?<T>) returns (moved: array?<T>, source: bool)
    ensures moved == p
    ensures !source
  {
    var src := new ArrayPtr.FromRaw(p);
    var dst := new ArrayPtr.Move(src);
    moved := dst.Get();
    source := src.AsBool();
  }
  /** swap exchanges the handles of two instances. */
  method SwapExchanges<T(0)>(p: array?<T>, q: array?<T>) returns (first: array?<T>, second: array?<T>)
    ensures first == q && second == p
  {
    var a := new ArrayPtr.FromRaw(p);
    var b := new ArrayPtr.FromRaw(q);
    a.Swap(b);
    first := a.Get();
    second := b.Get();
  }
}
