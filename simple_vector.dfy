/**
 * The growable sequence: a vector over one owned buffer, with a logical size
 * and an allocated capacity kept apart. Positions (the source's raw-pointer
 * iterators) are indices: begin() is 0 and end() is the size. The element type's
 * default value `Type{}`, which Dafny cannot produce for a type parameter, is the
 * value `dflt` each vector is built with.
 */
module SimpleVectors {
  import opened ArrayPtrs

  /** The capacity-reservation token: a value that carries only a capacity. */
  datatype ReserveProxyObj = ReserveProxyObj(capacity: nat) {
    function GetCapacity(): (n: nat)
      ensures n == capacity
    {
      capacity
    }
  }

  /** `Reserve(n)`: the token a vector can be built from. */
  function Reserve(capacityToReserve: nat): (r: ReserveProxyObj)
    ensures r.GetCapacity() == capacityToReserve
  {
    ReserveProxyObj(capacityToReserve)
  }

  /** The checked accessor either yields a value or reports `out_of_range`. */
  datatype Result<T> = Ok(value: T) | OutOfRange

  function Max(a: nat, b: nat): (m: nat)
    ensures a <= m && b <= m && (m == a || m == b)
  {
    if a < b then b else a
  }

  /**
   * The capacity Resize(n) leaves behind: unchanged when n fits, otherwise the
   * larger of n and twice the old capacity.
   */
  function GrownCapacity(capacity: nat, n: nat): (c: nat)
    ensures n <= c
    ensures n <= capacity ==> c == capacity
    ensures n > capacity ==> c >= 2 * capacity && (c == n || c == 2 * capacity)
  {
    if n <= capacity then capacity else Max(n, 2 * capacity)
  }

  ghost predicate IsPowerOfTwo(c: nat)
    decreases c
  {
    c == 1 || (c > 1 && c % 2 == 0 && IsPowerOfTwo(c / 2))
  }

  /** The capacity after k PushBack calls on a vector built empty. */
  function CapacityAfterPushes(k: nat): (c: nat)
    ensures k <= c
  {
    if k == 0 then 0 else GrownCapacity(CapacityAfterPushes(k - 1), k)
  }

  /**
   * Starting from an empty vector, capacities go 1, 2, 4, 8, ...: after k > 0
   * pushes the capacity is the power of two c with k <= c < 2k.
   */
  lemma {:induction false} CapacityDoubles(k: nat)
    ensures k == 0 ==> CapacityAfterPushes(k) == 0
    ensures k > 0 ==> IsPowerOfTwo(CapacityAfterPushes(k)) &&
                      k <= CapacityAfterPushes(k) < 2 * k
  {
    if k > 1 {
      CapacityDoubles(k - 1);
      var c := CapacityAfterPushes(k - 1);
      if k > c {
        assert c == k - 1;
        assert CapacityAfterPushes(k) == 2 * c;
        assert (2 * c) / 2 == c;
      }
    }
  }

  /** `std::fill` and the source's fill loops: a[lo..hi) gets x, the rest of a is kept. */
  method Fill<T>(a: array<T>, lo: nat, hi: nat, x: T)
    requires lo <= hi <= a.Length
    modifies a
    ensures forall j :: lo <= j < hi ==> a[j] == x
    ensures forall j :: 0 <= j < a.Length && !(lo <= j < hi) ==> a[j] == old(a[j])
  {
    var i := lo;
    while i < hi
      invariant lo <= i <= hi
      invariant forall j :: lo <= j < i ==> a[j] == x
      invariant forall j :: 0 <= j < a.Length && !(lo <= j < i) ==> a[j] == old(a[j])
    {
      a[i] := x;
      i := i + 1;
    }
  }

  /**
   * `std::copy` / `std::move` of src[lo..hi) to dst[d..), left to right. Within
   * one array the standard demands that the destination start lies outside the
   * source range, which is what makes the left-to-right order safe.
   */
  method CopyForward<T>(src: array<T>, lo: nat, hi: nat, dst: array<T>, d: nat)
    requires lo <= hi <= src.Length && d + (hi - lo) <= dst.Length
    requires src == dst ==> d < lo || hi <= d
    modifies dst
    ensures forall j :: d <= j < d + (hi - lo) ==> dst[j] == old(src[j - d + lo])
    ensures forall j :: 0 <= j < dst.Length && !(d <= j < d + (hi - lo)) ==> dst[j] == old(dst[j])
  {
    var k := 0;
    while k < hi - lo
      invariant 0 <= k <= hi - lo
      invariant forall j :: d <= j < d + k ==> dst[j] == old(src[j - d + lo])
      invariant forall j :: 0 <= j < dst.Length && !(d <= j < d + k) ==> dst[j] == old(dst[j])
      invariant src != dst ==> src[..] == old(src[..])
    {
      dst[d + k] := src[lo + k];
      k := k + 1;
    }
  }

  /** `std::move` of an initializer list into the front of dst. */
  method CopyFromList<T>(init: seq<T>, dst: array<T>)
    requires |init| <= dst.Length
    modifies dst
    ensures dst[..|init|] == init
    ensures dst[|init|..] == old(dst[|init|..])
  {
    var i := 0;
    while i < |init|
      invariant 0 <= i <= |init|
      invariant dst[..i] == init[..i]
      invariant dst[|init|..] == old(dst[|init|..])
    {
      dst[i] := init[i];
      i := i + 1;
    }
  }

  /**
   * The tail shift of Insert: a[lo..hi) moves one slot right, into a[lo+1..hi+1),
   * walking from the right end so that no element is overwritten before it is
   * read. The source writes this shift as a forward `std::copy` whose destination
   * lies inside its source range (see InsertAsWritten).
   */
  method ShiftRight<T>(a: array<T>, lo: nat, hi: nat)
    requires lo <= hi < a.Length
    modifies a
    ensures forall j :: lo < j <= hi ==> a[j] == old(a[j - 1])
    ensures forall j :: 0 <= j < a.Length && !(lo < j <= hi) ==> a[j] == old(a[j])
  {
    var i := hi;
    while i > lo
      invariant lo <= i <= hi
      invariant forall j :: i < j <= hi ==> a[j] == old(a[j - 1])
      invariant forall j :: 0 <= j < a.Length && !(i < j <= hi) ==> a[j] == old(a[j])
    {
      a[i] := a[i - 1];
      i := i - 1;
    }
  }

  /**
   * What the source's Insert shift does when `std::copy(start, end() - 1, start + 1)`
   * runs element by element on one buffer s, as the standard's definition of
   * `std::copy` describes it: for k = 0, 1, ..., s[d + k] := s[lo + k], each read
   * seeing the writes before it. With d inside [lo, hi) this breaks the
   * precondition of `std::copy` (section [alg.copy] of ISO/IEC 14882).
   */
  function ForwardCopyInPlace<T>(s: seq<T>, lo: nat, hi: nat, d: nat): (r: seq<T>)
    requires lo <= hi <= |s| && d + (hi - lo) <= |s|
    ensures |r| == |s|
    decreases hi - lo
  {
    if lo == hi then s else ForwardCopyInPlace(s[d := s[lo]], lo + 1, hi, d + 1)
  }

  /** Insert as the source writes it: grow by one slot, forward-copy the tail, write value. */
  function InsertAsWritten<T>(s: seq<T>, pos: nat, value: T, dflt: T): (r: seq<T>)
    requires pos <= |s|
    ensures |r| == |s| + 1 && r[pos] == value
  {
    ForwardCopyInPlace(s + [dflt], pos, |s|, pos + 1)[pos := value]
  }

  /** A forward copy one slot to the right repeats its first element over the whole range. */
  lemma {:induction false} ForwardCopyRightSmears<T>(s: seq<T>, lo: nat, hi: nat)
    requires lo <= hi < |s|
    ensures var r := ForwardCopyInPlace(s, lo, hi, lo + 1);
      forall j :: lo < j <= hi ==> r[j] == s[lo]
    ensures var r := ForwardCopyInPlace(s, lo, hi, lo + 1);
      forall j :: 0 <= j < |s| && !(lo < j <= hi) ==> r[j] == s[j]
    decreases hi - lo
  {
    if lo < hi {
      var t := s[lo + 1 := s[lo]];
      ForwardCopyRightSmears(t, lo + 1, hi);
    }
  }

  /**
   * As written, inserting at pos < size fills every later position with the
   * element that was at pos, instead of the shifted tail.
   */
  lemma InsertAsWrittenSmears<T>(s: seq<T>, pos: nat, value: T, dflt: T)
    requires pos < |s|
    ensures forall j :: pos < j <= |s| ==> InsertAsWritten(s, pos, value, dflt)[j] == s[pos]
    ensures forall j :: 0 <= j < pos ==> InsertAsWritten(s, pos, value, dflt)[j] == s[j]
  {
    ForwardCopyRightSmears(s + [dflt], pos, |s|);
  }

  /** The concrete input: inserting 9 at the front of [1, 2, 3] gives [9, 1, 1, 1], not [9, 1, 2, 3]. */
  lemma InsertAsWrittenCounterexample()
    ensures InsertAsWritten([1, 2, 3], 0, 9, 0) == [9, 1, 1, 1]
    ensures InsertAsWritten([1, 2, 3], 0, 9, 0) != [9] + [1, 2, 3]
  {
    InsertAsWrittenSmears([1, 2, 3], 0, 9, 0);
    assert InsertAsWritten([1, 2, 3], 0, 9, 0)[2] == 1;
  }

  class SimpleVector<T(0)> {
    /** The owned buffer; the subobject itself never changes, only its handle. */
    const arr: ArrayPtr<T>
    var size: nat
    var capacity: nat
    /** The value `Type{}` that default-filled slots receive. */
    const dflt: T

    /**
     * size <= capacity; a zero capacity is exactly the null handle; otherwise the
     * block holds capacity elements. The slots [size, capacity) are placeholders.
     */
    ghost predicate Valid()
      reads this, arr
    {
      && size <= capacity
      && (capacity == 0 <==> arr.raw == null)
      && (arr.raw != null ==> arr.raw.Length == capacity)
    }

    /** The logical contents, the buffer's range [0, size). */
    function Elements(): (s: seq<T>)
      reads this, arr, arr.raw
      requires Valid()
      ensures |s| == size
    {
      if arr.raw == null then [] else arr.raw[..size]
    }

    /** Default construction: empty, capacity 0, null buffer. */
    constructor (dflt: T)
      ensures Valid() && fresh(arr)
      ensures size == 0 && capacity == 0 && arr.raw == null
      ensures this.dflt == dflt
    {
      arr := new ArrayPtr<T>();
      size, capacity := 0, 0;
      this.dflt := dflt;
    }

    /** Construction from a reservation token: empty, with the reserved capacity. */
    constructor FromReserve(proxy: ReserveProxyObj, dflt: T)
      ensures Valid() && fresh(arr) && (arr.raw == null || fresh(arr.raw))
      ensures Elements() == [] && capacity == proxy.GetCapacity()
      ensures this.dflt == dflt
    {
      arr := new ArrayPtr<T>();
      size, capacity := 0, 0;
      this.dflt := dflt;
      new;
      Reserve(proxy.GetCapacity());
    }

    /** n default-valued elements, size == capacity == n. */
    constructor Count(n: nat, dflt: T)
      ensures Valid() && fresh(arr) && (arr.raw == null || fresh(arr.raw))
      ensures Elements() == seq(n, _ => dflt) && capacity == n
      ensures arr.raw != null ==> arr.raw[..] == Elements()
      ensures this.dflt == dflt
    {
      arr := new ArrayPtr<T>.Sized(n);
      size, capacity := n, n;
      this.dflt := dflt;
      new;
      if arr.raw != null {
        Fill(arr.raw, 0, n, dflt);
      }
    }

    /** n copies of value, size == capacity == n. */
    constructor CountValue(n: nat, value: T, dflt: T)
      ensures Valid() && fresh(arr) && (arr.raw == null || fresh(arr.raw))
      ensures Elements() == seq(n, _ => value) && capacity == n
      ensures this.dflt == dflt
    {
      arr := new ArrayPtr<T>.Sized(n);
      size, capacity := n, n;
      this.dflt := dflt;
      new;
      if arr.raw != null {
        Fill(arr.raw, 0, n, value);
      }
    }

    /** The initializer-list constructor: the list's elements, size == capacity == |init|. */
    constructor FromList(init: seq<T>, dflt: T)
      ensures Valid() && fresh(arr) && (arr.raw == null || fresh(arr.raw))
      ensures Elements() == init && capacity == |init|
      ensures this.dflt == dflt
    {
      arr := new ArrayPtr<T>.Sized(|init|);
      size, capacity := |init|, |init|;
      this.dflt := dflt;
      new;
      if arr.raw != null {
        CopyFromList(init, arr.raw);
        assert arr.raw[..size] == init;
      }
    }

    /**
     * The copy constructor: a deep copy whose capacity is the source's size, in
     * a buffer of its own.
     */
    constructor Copy(other: SimpleVector<T>)
      requires other.Valid()
      ensures Valid() && fresh(arr) && (arr.raw == null || fresh(arr.raw))
      ensures Elements() == other.Elements() && capacity == other.size
      ensures dflt == other.dflt
    {
      var n := other.size;
      var tmp := new ArrayPtr<T>.Sized(n);
      if n > 0 {
        CopyForward(other.arr.raw, 0, n, tmp.raw, 0);
      }
      var p := tmp.Release();
      arr := new ArrayPtr<T>();
      size, capacity := n, n;
      dflt := other.dflt;
      new;
      arr.SetPtr(p);
      assert p != null ==> p[..size] == other.Elements();
    }

    /**
     * The move constructor: takes over the source's buffer, size and capacity,
     * and leaves the source empty with a null buffer.
     */
    constructor Move(other: SimpleVector<T>)
      requires other.Valid()
      modifies other, other.arr
      ensures Valid() && other.Valid() && fresh(arr)
      ensures arr.raw == old(other.arr.raw) && Elements() == old(other.Elements())
      ensures size == old(other.size) && capacity == old(other.capacity)
      ensures other.size == 0 && other.capacity == 0 && other.arr.raw == null
      ensures dflt == other.dflt
    {
      arr := new ArrayPtr.Move(other.arr);
      size, capacity := other.size, other.capacity;
      dflt := other.dflt;
      new;
      other.size, other.capacity := 0, 0;
    }

    function GetSize(): (n: nat)
      reads this, arr, arr.raw
      requires Valid()
      ensures n == |Elements()|
    {
      size
    }

    function GetCapacity(): (c: nat)
      reads this, arr, arr.raw
      requires Valid()
      ensures |Elements()| <= c
      ensures c == 0 <==> arr.raw == null
    {
      capacity
    }

    function IsEmpty(): (b: bool)
      reads this, arr, arr.raw
      requires Valid()
      ensures b <==> Elements() == []
    {
      if size == 0 then true else false
    }

    /** Unchecked read, `operator[]`; the debug assert becomes the precondition. */
    function Index(index: nat): (x: T)
      reads this, arr, arr.raw
      requires Valid() && index < size
      ensures x == Elements()[index]
    {
      arr.Index(index)
    }

    /** Unchecked write through the reference `operator[]` returns. */
    method SetIndex(index: nat, x: T)
      requires Valid() && index < size
      modifies arr.raw
      ensures Valid() && Elements() == old(Elements())[index := x]
    {
      arr.SetIndex(index, x);
    }

    /** Checked read: out_of_range exactly when index >= size. */
    function At(index: nat): (r: Result<T>)
      reads this, arr, arr.raw
      requires Valid()
      ensures r.OutOfRange? <==> index >= |Elements()|
      ensures r.Ok? ==> r.value == Elements()[index]
    {
      if index >= size then OutOfRange else Ok(arr.Index(index))
    }

    /**
     * Checked write through the reference `At` returns: out_of_range exactly when
     * index >= size, and then nothing changes.
     */
    method AtSet(index: nat, x: T) returns (r: Result<()>)
      requires Valid()
      modifies arr.raw
      ensures Valid()
      ensures r.OutOfRange? <==> index >= size
      ensures r.OutOfRange? ==> arr.raw == null || arr.raw[..] == old(arr.raw[..])
      ensures Elements() == if r.Ok? then old(Elements())[index := x] else old(Elements())
    {
      if index >= size {
        return OutOfRange;
      }
      arr.SetIndex(index, x);
      return Ok(());
    }

    /** size becomes 0; capacity and buffer stay. */
    method Clear()
      requires Valid()
      modifies this`size
      ensures Valid() && Elements() == [] && capacity == old(capacity)
    {
      size := 0;
    }

    /**
     * Four cases: n == 0 clears; n <= size shrinks; n <= capacity refills the
     * whole placeholder range [size, capacity) with dflt; otherwise a new block
     * of max(n, 2 * capacity) receives the elements and dflt everywhere after them.
     */
    method Resize(n: nat)
      requires Valid()
      modifies this, arr, arr.raw
      ensures Valid() && size == n
      ensures capacity == GrownCapacity(old(capacity), n)
      ensures forall i :: 0 <= i < old(size) && i < n ==> Elements()[i] == old(Elements())[i]
      ensures forall i :: old(size) <= i < n ==> Elements()[i] == dflt
      ensures n <= old(capacity) ==> arr.raw == old(arr.raw)
      ensures n > old(capacity) ==> fresh(arr.raw)
      ensures n > old(size) ==> forall i :: old(size) <= i < capacity ==> arr.raw[i] == dflt
    {
      if n == 0 {
        Clear();
        return;
      }
      if n <= size {
        size := n;
        return;
      }
      if n <= capacity {
        Fill(arr.raw, size, capacity, dflt);
        size := n;
        return;
      }
      var newCapacity := Max(n, capacity * 2);
      var tmp := new ArrayPtr<T>.Sized(newCapacity);
      var a := tmp.raw;
      if arr.raw != null {
        CopyForward(arr.raw, 0, size, a, 0);
      }
      Fill(a, size, newCapacity, dflt);
      var p := tmp.Release();
      arr.SetPtr(p);
      size, capacity := n, newCapacity;
    }

    /**
     * Grows the buffer to exactly newCapacity when that exceeds the capacity,
     * keeping size and contents; a no-op otherwise. The source builds a count
     * vector of newCapacity defaults, copies the contents into it, swaps with it
     * and swaps the sizes back.
     */
    method Reserve(newCapacity: nat)
      requires Valid()
      modifies this, arr
      ensures Valid() && size == old(size) && Elements() == old(Elements())
      ensures old(capacity) < newCapacity ==> capacity == newCapacity && fresh(arr.raw)
      ensures old(capacity) < newCapacity ==> forall i :: size <= i < capacity ==> arr.raw[i] == dflt
      ensures newCapacity <= old(capacity) ==> capacity == old(capacity) && arr.raw == old(arr.raw)
    {
      if capacity < newCapacity {
        var newVector := new SimpleVector.Count(newCapacity, dflt);
        if size > 0 {
          CopyForward(arr.raw, 0, size, newVector.arr.raw, 0);
        }
        Swap(newVector);
        size, newVector.size := newVector.size, size;
      }
    }

    /** Exchanges buffer, size and capacity with other. */
    method Swap(other: SimpleVector<T>)
      requires Valid() && other.Valid()
      requires this == other || arr != other.arr
      modifies this, arr, other, other.arr
      ensures Valid() && other.Valid()
      ensures arr.raw == old(other.arr.raw) && other.arr.raw == old(arr.raw)
      ensures size == old(other.size) && other.size == old(size)
      ensures capacity == old(other.capacity) && other.capacity == old(capacity)
      ensures Elements() == old(other.Elements()) && other.Elements() == old(Elements())
    {
      var tmp := arr.Release();
      var p := other.arr.Release();
      arr.SetPtr(p);
      other.arr.SetPtr(tmp);
      size, other.size := other.size, size;
      capacity, other.capacity := other.capacity, capacity;
    }

    /**
     * Copy assignment: a deep copy of rhs with capacity rhs's size in a fresh
     * buffer; assigning a vector to itself changes nothing.
     */
    method CopyAssign(rhs: SimpleVector<T>)
      requires Valid() && rhs.Valid()
      requires this == rhs || arr != rhs.arr
      modifies this, arr
      ensures Valid() && Elements() == old(rhs.Elements())
      ensures rhs.Elements() == old(rhs.Elements())
      ensures this != rhs ==> capacity == old(rhs.size) && (arr.raw == null || fresh(arr.raw))
      ensures this == rhs ==> capacity == old(capacity) && arr.raw == old(arr.raw)
    {
      if this != rhs {
        var n := rhs.size;
        var tmp := new ArrayPtr<T>.Sized(n);
        if n > 0 {
          CopyForward(rhs.arr.raw, 0, n, tmp.raw, 0);
        }
        arr.Swap(tmp);
        size, capacity := n, n;
        assert arr.raw != null ==> arr.raw[..size] == rhs.Elements();
      }
    }

    /**
     * Move assignment: swaps buffer, size and capacity with rhs (rhs is not
     * emptied); assigning a vector to itself changes nothing.
     */
    method MoveAssign(rhs: SimpleVector<T>)
      requires Valid() && rhs.Valid()
      requires this == rhs || arr != rhs.arr
      modifies this, arr, rhs, rhs.arr
      ensures Valid() && rhs.Valid()
      ensures arr.raw == old(rhs.arr.raw) && rhs.arr.raw == old(arr.raw)
      ensures size == old(rhs.size) && rhs.size == old(size)
      ensures capacity == old(rhs.capacity) && rhs.capacity == old(capacity)
      ensures Elements() == old(rhs.Elements()) && rhs.Elements() == old(Elements())
    {
      if this != rhs {
        arr.Swap(rhs.arr);
        size, rhs.size := rhs.size, size;
        capacity, rhs.capacity := rhs.capacity, capacity;
      }
    }

    /**
     * Appends x via Resize(size + 1): the capacity doubles (0 becomes 1) only
     * when the vector was full.
     */
    method PushBack(x: T)
      requires Valid()
      modifies this, arr, arr.raw
      ensures Valid() && Elements() == old(Elements()) + [x]
      ensures old(size) < old(capacity) ==> capacity == old(capacity) && arr.raw == old(arr.raw)
      ensures old(size) == old(capacity) ==>
        capacity == (if old(capacity) == 0 then 1 else 2 * old(capacity)) && fresh(arr.raw)
    {
      Resize(size + 1);
      arr.SetIndex(size - 1, x);
      assert Elements() == old(Elements()) + [x];
    }

    /** Drops the last element; the debug assert becomes the precondition. */
    method PopBack()
      requires Valid() && size > 0
      modifies this`size
      ensures Valid() && Elements() == old(Elements())[..old(size) - 1]
      ensures capacity == old(capacity)
    {
      size := size - 1;
    }

    /**
     * Inserts value at position pos (pos == size appends) and returns pos. Grows
     * like PushBack, then shifts the tail right and writes value.
     */
    method Insert(pos: nat, value: T) returns (r: nat)
      requires Valid() && pos <= size
      modifies this, arr, arr.raw
      ensures Valid() && r == pos
      ensures Elements() == old(Elements())[..pos] + [value] + old(Elements())[pos..]
      ensures old(size) < old(capacity) ==> capacity == old(capacity) && arr.raw == old(arr.raw)
      ensures old(size) == old(capacity) ==>
        capacity == (if old(capacity) == 0 then 1 else 2 * old(capacity)) && fresh(arr.raw)
    {
      ghost var before := Elements();
      var dist := pos;
      Resize(size + 1);
      var a := arr.raw;
      ghost var grown := a[..];
      assert forall k :: 0 <= k < |before| ==> grown[k] == before[k];
      ShiftRight(a, dist, size - 1);
      a[dist] := value;
      r := dist;
      assert Elements() == before[..pos] + [value] + before[pos..] by {
        forall i | 0 <= i < size
          ensures Elements()[i] == (before[..pos] + [value] + before[pos..])[i]
        {
          if i < pos {
            assert a[i] == grown[i];
          } else if i > pos {
            assert a[i] == grown[i - 1];
          }
        }
      }
    }

    /**
     * Removes the element at pos (< size) by moving the tail one slot left, and
     * returns pos, where the following element now is.
     */
    method Erase(pos: nat) returns (r: nat)
      requires Valid() && pos < size
      modifies this`size, arr.raw
      ensures Valid() && r == pos && capacity == old(capacity)
      ensures Elements() == old(Elements())[..pos] + old(Elements())[pos + 1..]
    {
      ghost var before := Elements();
      var dist := pos;
      CopyForward(arr.raw, dist + 1, size, arr.raw, dist);
      size := size - 1;
      r := dist;
      assert Elements() == before[..pos] + before[pos + 1..] by {
        forall i | 0 <= i < size
          ensures Elements()[i] == (before[..pos] + before[pos + 1..])[i]
        {
        }
      }
    }
  }
}
