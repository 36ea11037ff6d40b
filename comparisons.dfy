/**
 * The free comparison operators over two vectors, stated on the vectors'
 * logical contents [0, size). `==` is element-wise equality with equal
 * lengths (four-iterator `std::equal`), `<` is `std::lexicographical_compare`
 * under the element order `less`, and `<=`, `>`, `>=`, `!=` are derived from
 * `==` and `<` exactly as the source derives them.
 */
module Comparisons {

  /** A strict total order on the element type. */
  ghost predicate StrictTotalOrder<T(!new)>(less: (T, T) -> bool) {
    && (forall x :: !less(x, x))
    && (forall x, y, z :: less(x, y) && less(y, z) ==> less(x, z))
    && (forall x, y :: x != y ==> less(x, y) || less(y, x))
  }

  /** `operator==`: the lengths agree and the elements agree pairwise. */
  function Equal<T(==)>(a: seq<T>, b: seq<T>): (r: bool)
    ensures r <==> |a| == |b| && forall i :: 0 <= i < |a| ==> a[i] == b[i]
  {
    if |a| != |b| then false
    else if |a| == 0 then true
    else a[0] == b[0] && Equal(a[1..], b[1..])
  }

  /** `operator!=` */
  function NotEqual<T(==)>(a: seq<T>, b: seq<T>): (r: bool)
    ensures r <==> a != b
  {
    !Equal(a, b)
  }

  /**
   * `operator<`: walks both sequences while neither element is less than the
   * other; a shorter sequence that runs out first is the smaller one.
   */
  function Less<T>(a: seq<T>, b: seq<T>, less: (T, T) -> bool): (r: bool)
    ensures |a| == 0 ==> (r <==> |b| > 0)
    ensures r ==> |b| > 0
  {
    if |a| == 0 || |b| == 0 then |a| == 0 && |b| != 0
    else if less(a[0], b[0]) then true
    else if less(b[0], a[0]) then false
    else Less(a[1..], b[1..], less)
  }

  /** `operator<=`, written in the source as `lhs == rhs || lhs < rhs`. */
  function LessEq<T(==)>(a: seq<T>, b: seq<T>, less: (T, T) -> bool): (r: bool)
    ensures r <==> a == b || Less(a, b, less)
  {
    Equal(a, b) || Less(a, b, less)
  }

  /** `operator>`, written in the source as `!(lhs == rhs || lhs < rhs)`. */
  function Greater<T(==)>(a: seq<T>, b: seq<T>, less: (T, T) -> bool): (r: bool)
    ensures r <==> a != b && !Less(a, b, less)
  {
    !(Equal(a, b) || Less(a, b, less))
  }

  /** `operator>=`, written in the source as `!(lhs < rhs)`. */
  function GreaterEq<T>(a: seq<T>, b: seq<T>, less: (T, T) -> bool): (r: bool)
    ensures |b| == 0 ==> r
  {
    !Less(a, b, less)
  }

  /** `==` on vectors is equality of their contents. */
  lemma EqualIsContentEquality<T>(a: seq<T>, b: seq<T>)
    ensures Equal(a, b) <==> a == b
  {
    if Equal(a, b) {
      assert a == b;
    }
  }

  /**
   * Under a strict total order, `<` is the lexicographic order: either `a` is a
   * proper prefix of `b`, or at the first position where they differ `a` holds
   * the smaller element.
   */
  lemma {:induction false} LessIsLexicographic<T(!new)>(a: seq<T>, b: seq<T>, less: (T, T) -> bool)
    requires StrictTotalOrder(less)
    ensures Less(a, b, less) <==>
      (|a| < |b| && b[..|a|] == a) ||
      (exists k :: 0 <= k < |a| && k < |b| && a[..k] == b[..k] && less(a[k], b[k]))
  {
    if |a| == 0 || |b| == 0 {
    } else if less(a[0], b[0]) {
      assert a[..0] == b[..0];
    } else if less(b[0], a[0]) {
    } else {
      assert a[0] == b[0];
      LessIsLexicographic(a[1..], b[1..], less);
      var a', b' := a[1..], b[1..];
      if |a'| < |b'| && b'[..|a'|] == a' {
        assert b[..|a|] == [b[0]] + b'[..|a'|];
        assert a == [a[0]] + a';
      }
      if exists k :: 0 <= k < |a'| && k < |b'| && a'[..k] == b'[..k] && less(a'[k], b'[k]) {
        var k :| 0 <= k < |a'| && k < |b'| && a'[..k] == b'[..k] && less(a'[k], b'[k]);
        assert a[..k + 1] == [a[0]] + a'[..k];
        assert b[..k + 1] == [b[0]] + b'[..k];
        assert a[k + 1] == a'[k] && b[k + 1] == b'[k];
      }
      if |a| < |b| && b[..|a|] == a {
        assert b'[..|a'|] == b[..|a|][1..];
      }
      if exists k :: 0 <= k < |a| && k < |b| && a[..k] == b[..k] && less(a[k], b[k]) {
        var k :| 0 <= k < |a| && k < |b| && a[..k] == b[..k] && less(a[k], b[k]);
        assert k != 0;
        assert a'[..k - 1] == a[..k][1..] && b'[..k - 1] == b[..k][1..];
        assert a'[k - 1] == a[k] && b'[k - 1] == b[k];
      }
    }
  }

  /** No sequence is less than itself when no element is less than itself. */
  lemma {:induction false} LessIrreflexive<T(!new)>(a: seq<T>, less: (T, T) -> bool)
    requires forall x :: !less(x, x)
    ensures !Less(a, a, less)
  {
    if |a| > 0 {
      LessIrreflexive(a[1..], less);
    }
  }

  /** `<` on sequences is transitive when the element order is. */
  lemma {:induction false} LessTransitive<T(!new)>(a: seq<T>, b: seq<T>, c: seq<T>, less: (T, T) -> bool)
    requires StrictTotalOrder(less)
    requires Less(a, b, less) && Less(b, c, less)
    ensures Less(a, c, less)
  {
    if |a| == 0 {
    } else {
      assert |b| > 0 && |c| > 0;
      if less(a[0], b[0]) || less(b[0], c[0]) {
        // the first elements already decide; a[0] == b[0] or b[0] == c[0] otherwise
        assert less(a[0], b[0]) || a[0] == b[0];
        assert less(b[0], c[0]) || b[0] == c[0];
      } else {
        assert a[0] == b[0] && b[0] == c[0];
        LessTransitive(a[1..], b[1..], c[1..], less);
      }
    }
  }

  /** Under a strict total order exactly one of a < b, a == b, b < a holds. */
  lemma {:induction false} Trichotomy<T(!new)>(a: seq<T>, b: seq<T>, less: (T, T) -> bool)
    requires StrictTotalOrder(less)
    ensures Less(a, b, less) || a == b || Less(b, a, less)
    ensures !(Less(a, b, less) && Less(b, a, less))
    ensures a == b ==> !Less(a, b, less)
  {
    if a == b {
      LessIrreflexive(a, less);
    } else if |a| == 0 || |b| == 0 {
    } else if less(a[0], b[0]) || less(b[0], a[0]) {
    } else {
      assert a[0] == b[0];
      assert a[1..] != b[1..];
      Trichotomy(a[1..], b[1..], less);
    }
  }

  /**
   * The derived operators mean what their names say, which relies on the
   * element order being a strict total order: `<=` is "not greater", `>` is the
   * converse of `<` and `>=` is the converse of `<=`.
   */
  lemma DerivedOperators<T(!new)>(a: seq<T>, b: seq<T>, less: (T, T) -> bool)
    requires StrictTotalOrder(less)
    ensures LessEq(a, b, less) <==> !Less(b, a, less)
    ensures Greater(a, b, less) <==> Less(b, a, less)
    ensures GreaterEq(a, b, less) <==> LessEq(b, a, less)
  {
    EqualIsContentEquality(a, b);
    EqualIsContentEquality(b, a);
    Trichotomy(a, b, less);
  }

  /**
   * Without totality the derivation breaks: with an order under which no two
   * elements are comparable, [1] > [2] holds although [2] < [1] does not.
   */
  lemma GreaterNeedsTotality()
    ensures var none := (x: int, y: int) => false;
      Greater([1], [2], none) && !Less([2], [1], none)
  {
    var none := (x: int, y: int) => false;
    assert !Equal([1], [2]);
  }

  /**
   * Ordering examples on integer vectors: {1,2,3} < {1,2,4}, {1,2} < {1,2,3},
   * {1,2,3} == {1,2,3} and not {1,2,3} < {1,2,3}.
   */
  lemma IntegerExamples()
    ensures var lt := (x: int, y: int) => x < y;
      && Less([1, 2, 3], [1, 2, 4], lt)
      && Less([1, 2], [1, 2, 3], lt)
      && Equal([1, 2, 3], [1, 2, 3])
      && !Less([1, 2, 3], [1, 2, 3], lt)
  {
    var lt := (x: int, y: int) => x < y;
    assert [1, 2, 3][1..] == [2, 3] && [1, 2, 4][1..] == [2, 4];
    assert [2, 3][1..] == [3] && [2, 4][1..] == [4];
    assert [1, 2][1..] == [2] && [1, 2, 3][1..] == [2, 3];
    assert [2][1..] == [] && [3][1..] == [];
  }
}
