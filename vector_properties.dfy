/**
 * Properties that relate several vector operations, stated as methods that
 * either build their own vectors or hold for any valid vector they are given:
 * the growth sequence of repeated PushBack,
 * the round trips PushBack/PopBack and Insert/Erase, independence of copies,
 * the state a move leaves behind, and the boundary cases of Insert, Erase and At.
 */
module VectorProperties {
  import opened SimpleVectors
  import Comparisons

  /**
   * Pushing values one by one onto an empty vector: the capacities seen after
   * each push are 1, 2, 4, 8, ..., each the power of two c with k <= c < 2k
   * after the k-th push, and the contents end up equal to values.
   */
  method PushBackCapacities<T(0)>(values: seq<T>, dflt: T) returns (caps: seq<nat>, contents: seq<T>)
    ensures |caps| == |values|
    ensures forall i :: 0 <= i < |caps| ==> caps[i] == CapacityAfterPushes(i + 1)
    ensures forall i :: 0 <= i < |caps| ==> IsPowerOfTwo(caps[i]) && i + 1 <= caps[i] < 2 * (i + 1)
    ensures contents == values
  {
    var v := new SimpleVector<T>(dflt);
    caps := [];
    var i := 0;
    while i < |values|
      invariant 0 <= i <= |values|
      invariant v.Valid() && fresh(v) && fresh(v.arr) && (v.arr.raw == null || fresh(v.arr.raw))
      invariant v.Elements() == values[..i]
      invariant v.capacity == CapacityAfterPushes(i)
      invariant |caps| == i
      invariant forall j :: 0 <= j < i ==> caps[j] == CapacityAfterPushes(j + 1)
    {
      v.PushBack(values[i]);
      caps := caps + [v.GetCapacity()];
      i := i + 1;
    }
    contents := v.Elements();
    forall j | 0 <= j < |caps|
      ensures IsPowerOfTwo(caps[j]) && j + 1 <= caps[j] < 2 * (j + 1)
    {
      CapacityDoubles(j + 1);
    }
  }

  /** PopBack after PushBack restores the prior contents. */
  method PushBackThenPopBack<T(0)>(v: SimpleVector<T>, x: T)
    requires v.Valid()
    modifies v, v.arr, v.arr.raw
    ensures v.Valid() && v.Elements() == old(v.Elements())
  {
    v.PushBack(x);
    v.PopBack();
  }

  /** Erase at the position Insert returned restores the prior contents. */
  method InsertThenErase<T(0)>(v: SimpleVector<T>, pos: nat, x: T)
    requires v.Valid() && pos <= v.size
    modifies v, v.arr, v.arr.raw
    ensures v.Valid() && v.Elements() == old(v.Elements())
  {
    ghost var before := v.Elements();
    var at := v.Insert(pos, x);
    ghost var inserted := v.Elements();
    assert inserted[..pos] == before[..pos];
    assert inserted[pos + 1..] == before[pos..];
    var next := v.Erase(at);
    assert v.Elements() == before[..pos] + before[pos..];
    assert before[..pos] + before[pos..] == before;
  }

  /**
   * A copy compares equal to its source, and writing into the copy leaves the
   * source untouched: the copy's buffer is its own.
   */
  method CopyIsIndependent<T(0,==)>(init: seq<T>, x: T, dflt: T)
    returns (equalAfterCopy: bool, original: seq<T>, copy: seq<T>)
    requires |init| > 0
    ensures equalAfterCopy
    ensures original == init
    ensures copy == init[0 := x]
  {
    var v := new SimpleVector.FromList(init, dflt);
    var c := new SimpleVector.Copy(v);
    equalAfterCopy := Comparisons.Equal(c.Elements(), v.Elements());
    c.SetIndex(0, x);
    original := v.Elements();
    copy := c.Elements();
  }

  /**
   * Move construction hands the contents to the new vector and leaves the
   * source with size 0, capacity 0 and a null buffer.
   */
  method MoveLeavesSourceEmpty<T(0)>(init: seq<T>, dflt: T)
    returns (moved: seq<T>, sourceSize: nat, sourceCapacity: nat, sourceHolds: bool)
    ensures moved == init
    ensures sourceSize == 0 && sourceCapacity == 0 && !sourceHolds
  {
    var v := new SimpleVector.FromList(init, dflt);
    var m := new SimpleVector.Move(v);
    moved := m.Elements();
    sourceSize := v.GetSize();
    sourceCapacity := v.GetCapacity();
    sourceHolds := v.arr.AsBool();
  }

  /**
   * Move assignment swaps: the target gets the source's contents and the source
   * keeps the target's former contents.
   */
  method MoveAssignSwaps<T(0)>(a: seq<T>, b: seq<T>, dflt: T) returns (target: seq<T>, source: seq<T>)
    ensures target == b && source == a
  {
    var x := new SimpleVector.FromList(a, dflt);
    var y := new SimpleVector.FromList(b, dflt);
    x.MoveAssign(y);
    target := x.Elements();
    source := y.Elements();
  }

  /**
   * Reserving on a vector built from Reserve(n) and filled with values keeps
   * size and contents; the capacity becomes the larger request.
   */
  method ReserveKeepsContents<T(0)>(n: nat, values: seq<T>, m: nat, dflt: T)
    returns (emptyCapacity: nat, capacity: nat, contents: seq<T>)
    requires |values| <= n
    ensures emptyCapacity == n
    ensures capacity == Max(n, m)
    ensures contents == values
  {
    var v := new SimpleVector.FromReserve(Reserve(n), dflt);
    emptyCapacity := v.GetCapacity();
    var i := 0;
    while i < |values|
      invariant 0 <= i <= |values|
      invariant v.Valid() && fresh(v) && fresh(v.arr) && (v.arr.raw == null || fresh(v.arr.raw))
      invariant v.Elements() == values[..i] && v.capacity == n
    {
      v.PushBack(values[i]);
      i := i + 1;
    }
    v.Reserve(m);
    capacity := v.GetCapacity();
    contents := v.Elements();
  }

  /** Insert at begin and at end, and Erase at begin, on small integer vectors. */
  method BoundaryExamples() returns (front: seq<int>, back: seq<int>, erased: seq<int>)
    ensures front == [7, 2, 3]
    ensures back == [1, 2, 7]
    ensures erased == [2, 3]
  {
    var a := new SimpleVector.FromList([2, 3], 0);
    var p := a.Insert(0, 7);
    front := a.Elements();
    var b := new SimpleVector.FromList([1, 2], 0);
    var q := b.Insert(b.GetSize(), 7);
    back := b.Elements();
    var c := new SimpleVector.FromList([1, 2, 3], 0);
    var r := c.Erase(0);
    erased := c.Elements();
  }

  /** On a vector of size 3, At(3) reports out_of_range and At(2) yields the last element. */
  method AtExamples() returns (past: Result<int>, last: Result<int>)
    ensures past == OutOfRange
    ensures last == Ok(30)
  {
    var v := new SimpleVector.FromList([10, 20, 30], 0);
    past := v.At(3);
    last := v.At(2);
  }

  /** Growing with Resize exposes default values and keeps the prefix. */
  method ResizeExposesDefaults(init: seq<int>, n: nat) returns (contents: seq<int>)
    requires |init| <= n
    ensures contents == init + seq(n - |init|, _ => 0)
  {
    var v := new SimpleVector.FromList(init, 0);
    v.Resize(n);
    contents := v.Elements();
  }
}
