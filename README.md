# SimpleVector and ArrayPtr in Dafny

This project models a small C++ container library. It has two layers.

- `ArrayPtr<Type>` is an exclusive-ownership handle to a heap block. All of its behaviour reads or reassigns one field, the raw handle.
- `SimpleVector<Type>` is a growable contiguous vector built on one `ArrayPtr`. It keeps a logical `size` and an allocated `capacity` apart. It has the four-way `Resize` with the growth rule `max(n, 2·capacity)`, `Reserve`, `PushBack`, `PopBack`, `Insert`, `Erase`, a checked accessor `At` and copy/move/swap bookkeeping.
- The free operators `==`, `!=`, `<`, `<=`, `>` and `>=` compare two vectors.

Files:

- `array_ptr.dfy` (module `ArrayPtrs`): the class `ArrayPtr<T>`, with `var raw: array?<T>`, plus small methods that state the handle protocol's round trips.
- `simple_vector.dfy` (module `SimpleVectors`): the token datatype `ReserveProxyObj` and the free function `Reserve`; the growth rule as functions, with the doubling lemma; the in-place loops (`Fill`, `CopyForward`, `CopyFromList`, `ShiftRight`); the as-written model of Insert's shift (see Findings); and the class `SimpleVector<T>`.
- `comparisons.dfy` (module `Comparisons`): the comparison operators as functions on the two vectors' contents, with lemmas.
- `vector_properties.dfy` (module `VectorProperties`): properties that relate several operations, each a method that either builds its own vectors or holds for any valid vector it is given.

How the model is built:

- A vector's class invariant `Valid()` has three parts: `size <= capacity`; `capacity == 0` exactly when the handle is null; and a non-null block holds exactly `capacity` elements.
- `Elements()` is the block's range `[0, size)`. Every mutating method states the new `Elements()` in terms of the old one. It also states the new capacity and whether the block is the old one or a fresh one.
- `Type{}` cannot be written for a Dafny type parameter. Each vector is built with an explicit value `dflt` that plays its role.
- Positions are indices: `begin()` is 0 and `end()` is the size.
- The debug `assert`s of `operator[]`, `Insert`, `PopBack` and `Erase` become preconditions.
- `out_of_range` becomes the `OutOfRange` value of a `Result`.

## Model

| member | source | states |
|---|---|---|
| `ArrayPtrs.ArrayPtr.constructor` | array_ptr.h:11-12 | default construction holds the null handle |
| `ArrayPtrs.ArrayPtr.Sized` | array_ptr.h:14-23 | size 0 leaves the handle null; size n > 0 holds a fresh block of exactly n elements |
| `ArrayPtrs.ArrayPtr.FromRaw` | array_ptr.h:25-28 | adopts exactly the given handle, null included |
| `ArrayPtrs.ArrayPtr.Move` | array_ptr.h:41-44 | the new instance holds the source's former handle and the source is null |
| `ArrayPtrs.ArrayPtr.Release` | array_ptr.h:53-59 | returns the handle held before the call and leaves the instance null |
| `ArrayPtrs.ArrayPtr.Get` | array_ptr.h:76-79 | returns the held handle without changing anything |
| `ArrayPtrs.ArrayPtr.SetPtr` | array_ptr.h:81-84 | afterwards the instance holds exactly p |
| `ArrayPtrs.ArrayPtr.Swap` | array_ptr.h:87-95 | the two handles are exchanged and only the two instances change |
| `ArrayPtrs.ArrayPtr.AsBool` | array_ptr.h:71-74 | true exactly when the handle is non-null |
| `ArrayPtrs.ArrayPtr.Index` | array_ptr.h:66-69 | unchecked read: the index must lie inside the block (caller's obligation) and the result is that element |
| `ArrayPtrs.ArrayPtr.SetIndex` | array_ptr.h:61-64 | unchecked write through the returned reference: only that element of the block changes |
| `ArrayPtrs.ReleaseTwice` | array_ptr.h:53-59 | a first Release returns the adopted handle, a second returns null, and the instance then converts to false |
| `ArrayPtrs.ConstructedTruth` | array_ptr.h:71-74 | a default-constructed instance converts to false; a sized one converts to true exactly when n > 0, and then its block has length n |
| `ArrayPtrs.AdoptThenRelease` | array_ptr.h:76-84 | after SetPtr(q), Get returns q and Release hands back q |
| `ArrayPtrs.MoveLeavesSourceNull` | array_ptr.h:41-44 | moving out leaves the source false and the destination holding the source's handle |
| `ArrayPtrs.SwapExchanges` | array_ptr.h:87-90 | after swap each instance holds the other's former handle |
| `SimpleVectors.ReserveProxyObj.GetCapacity` | simple_vector.h:15-26 | the token yields the capacity it was built with |
| `SimpleVectors.Reserve` | simple_vector.h:29-31 | `Reserve(n)` is the token carrying n |
| `SimpleVectors.GrownCapacity` | simple_vector.h:168-169 | the capacity Resize(n) leaves is at least n, equals the old capacity when n fits, and otherwise is n or twice the old capacity, whichever is larger |
| `SimpleVectors.CapacityDoubles` | simple_vector.h:252-258 | from an empty vector, after k > 0 pushes the capacity is the power of two c with k <= c < 2k (1, 2, 4, 8, ...) |
| `SimpleVectors.Fill` | simple_vector.h:74-76 | `std::fill` and the fill loops: the range gets the value, every other slot keeps its value |
| `SimpleVectors.CopyForward` | simple_vector.h:310 | `std::copy`/`std::move` left to right, under the standard's precondition that the destination start lies outside the source range: the destination range gets the old source range, nothing else changes |
| `SimpleVectors.CopyFromList` | simple_vector.h:86-88 | moves the initializer list into the front of the block, leaving the rest unchanged |
| `SimpleVectors.ShiftRight` | simple_vector.h:277-279 | the corrected Insert shift: one slot right, walking from the right end, so every shifted slot holds its left neighbour's old value and nothing else changes |
| `SimpleVectors.ForwardCopyInPlace` | simple_vector.h:278 | the in-place element-by-element forward copy the source's Insert shift performs; the length is kept |
| `SimpleVectors.InsertAsWritten` | simple_vector.h:271-281 | Insert as written over values: one slot longer, with value at pos |
| `SimpleVectors.ForwardCopyRightSmears` | simple_vector.h:278 | a forward copy to one slot right repeats the first element over the whole destination range and leaves the rest unchanged |
| `SimpleVectors.InsertAsWrittenSmears` | simple_vector.h:271-281 | as written, inserting at pos < size puts the element that was at pos in every later position and keeps the prefix |
| `SimpleVectors.InsertAsWrittenCounterexample` | simple_vector.h:277-280 | as written, inserting 9 at the front of [1, 2, 3] gives [9, 1, 1, 1] instead of [9, 1, 2, 3] |
| `SimpleVectors.SimpleVector.Elements` | simple_vector.h:185-195 | the contents are the block's range [begin, end), of length size |
| `SimpleVectors.SimpleVector.constructor` | simple_vector.h:57 | an empty vector: size 0, capacity 0, null buffer |
| `SimpleVectors.SimpleVector.FromReserve` | simple_vector.h:40-43 | built from `Reserve(n)`: no elements and capacity n |
| `SimpleVectors.SimpleVector.Count` | simple_vector.h:65-71 | n default values, size == capacity == n, in a fresh buffer |
| `SimpleVectors.SimpleVector.CountValue` | simple_vector.h:73-76 | n copies of value, size == capacity == n |
| `SimpleVectors.SimpleVector.FromList` | simple_vector.h:85-88 | the list's elements, size == capacity == the list length |
| `SimpleVectors.SimpleVector.Copy` | simple_vector.h:221-226 | equal contents, capacity equal to the source's size, and a buffer allocated by the copy |
| `SimpleVectors.SimpleVector.Move` | simple_vector.h:59-63 | takes over the source's buffer, size and capacity; the source is left with size 0, capacity 0 and a null buffer |
| `SimpleVectors.SimpleVector.GetSize` | simple_vector.h:90-93 | the number of elements |
| `SimpleVectors.SimpleVector.GetCapacity` | simple_vector.h:95-98 | at least the size, and zero exactly when there is no buffer |
| `SimpleVectors.SimpleVector.IsEmpty` | simple_vector.h:100-103 | true exactly when there are no elements |
| `SimpleVectors.SimpleVector.Index` | simple_vector.h:111-115 | unchecked read under index < size: element index |
| `SimpleVectors.SimpleVector.SetIndex` | simple_vector.h:105-109 | unchecked write under index < size: only element index changes |
| `SimpleVectors.SimpleVector.At` | simple_vector.h:126-133 | `out_of_range` exactly when index >= size, otherwise element index |
| `SimpleVectors.SimpleVector.AtSet` | simple_vector.h:117-124 | `out_of_range` exactly when index >= size, and then the block is unchanged; otherwise only element index changes |
| `SimpleVectors.SimpleVector.Clear` | simple_vector.h:135-138 | no elements, capacity unchanged |
| `SimpleVectors.SimpleVector.Resize` | simple_vector.h:140-183 | size becomes n. Capacity becomes GrownCapacity(old capacity, n). Elements below min(old size, n) are kept and positions [old size, n) hold the default. When growing, the whole placeholder range [old size, capacity) holds the default. The block is the old one within capacity and a fresh one beyond it |
| `SimpleVectors.SimpleVector.Reserve` | simple_vector.h:45-52 | above the capacity: capacity becomes exactly the request and the buffer is fresh, with the same size and contents and defaults after them; otherwise nothing changes |
| `SimpleVectors.SimpleVector.Swap` | simple_vector.h:315-331 | exchanges buffer handle, size and capacity, and so contents, between the two vectors |
| `SimpleVectors.SimpleVector.CopyAssign` | simple_vector.h:228-240 | contents equal to rhs's, rhs unchanged, capacity rhs's size in a fresh buffer; self-assignment changes nothing |
| `SimpleVectors.SimpleVector.MoveAssign` | simple_vector.h:242-250 | exchanges buffer, size and capacity with rhs (rhs receives the old contents, it is not emptied); self-assignment changes nothing |
| `SimpleVectors.SimpleVector.PushBack` | simple_vector.h:252-265 | contents become old + [x]. The capacity is kept when there was room; when the vector was full it becomes 1 from 0, otherwise twice the old capacity, in a fresh buffer |
| `SimpleVectors.SimpleVector.PopBack` | simple_vector.h:296-300 | under size > 0, drops the last element and keeps the capacity |
| `SimpleVectors.SimpleVector.Insert` | simple_vector.h:267-294 | under pos <= size: contents become old[..pos] + [value] + old[pos..] and the result is pos. Capacity grows as in PushBack only when the vector was full |
| `SimpleVectors.SimpleVector.Erase` | simple_vector.h:302-313 | under pos < size: contents become old[..pos] + old[pos+1..], the capacity is kept and the result is pos |
| `Comparisons.Equal` | simple_vector.h:341-344 | true exactly when the lengths agree and the elements agree pairwise |
| `Comparisons.EqualIsContentEquality` | simple_vector.h:341-344 | `==` is equality of contents |
| `Comparisons.NotEqual` | simple_vector.h:346-349 | `!=` is true exactly when the contents differ |
| `Comparisons.Less` | simple_vector.h:351-354 | `operator<` as `std::lexicographical_compare` walks it: an empty lhs is less exactly when rhs is non-empty, and nothing is less than an empty rhs; the full lexicographic characterisation is `LessIsLexicographic` |
| `Comparisons.GreaterEq` | simple_vector.h:366-369 | `operator>=` is "not <", so every vector is >= an empty one; under a strict total order it is the converse of `<=` (`DerivedOperators`) |
| `Comparisons.LessEq` | simple_vector.h:356-359 | `<=` is contents equal or `<` |
| `Comparisons.Greater` | simple_vector.h:361-364 | `>` is contents different and not `<` |
| `Comparisons.LessIsLexicographic` | simple_vector.h:351-354 | under a strict total order, `<` holds exactly when lhs is a proper prefix of rhs or lhs holds the smaller element at the first position where they differ |
| `Comparisons.LessIrreflexive` | simple_vector.h:351-354 | no vector is `<` itself |
| `Comparisons.LessTransitive` | simple_vector.h:351-354 | `<` is transitive |
| `Comparisons.Trichotomy` | simple_vector.h:351-354 | exactly one of lhs < rhs, lhs == rhs, rhs < lhs holds |
| `Comparisons.DerivedOperators` | simple_vector.h:356-369 | under a strict total order `<=` is "not rhs < lhs", `>` is "rhs < lhs" and `>=` is the converse of `<=` |
| `Comparisons.GreaterNeedsTotality` | simple_vector.h:361-364 | without totality, `>` is not the converse of `<`: with no two elements comparable, [1] > [2] holds but [2] < [1] does not |
| `Comparisons.IntegerExamples` | simple_vector.h:351-354 | {1,2,3} < {1,2,4}, {1,2} < {1,2,3}, {1,2,3} == {1,2,3} and not {1,2,3} < {1,2,3} |
| `VectorProperties.PushBackCapacities` | simple_vector.h:252-258 | pushing onto an empty vector: after the k-th push the capacity is CapacityAfterPushes(k), the power of two in [k, 2k), and the contents are the pushed values |
| `VectorProperties.PushBackThenPopBack` | simple_vector.h:296-300 | PopBack after PushBack restores the contents |
| `VectorProperties.InsertThenErase` | simple_vector.h:302-313 | Erase at the position Insert returned restores the contents |
| `VectorProperties.CopyIsIndependent` | simple_vector.h:221-226 | a copy compares equal to its source, and writing into the copy leaves the source unchanged |
| `VectorProperties.MoveLeavesSourceEmpty` | simple_vector.h:59-63 | the moved-to vector has the contents; the source has size 0, capacity 0 and a null handle |
| `VectorProperties.MoveAssignSwaps` | simple_vector.h:242-250 | after move assignment the target has the source's contents and the source the target's former ones |
| `VectorProperties.ReserveKeepsContents` | simple_vector.h:40-52 | a vector built from Reserve(n) has capacity n. Pushing at most n values keeps that capacity. Reserve(m) then leaves capacity max(n, m) and the same contents |
| `VectorProperties.BoundaryExamples` | simple_vector.h:267-313 | insert at begin on {2,3} gives {7,2,3}; insert at end on {1,2} gives {1,2,7}; erase at begin on {1,2,3} gives {2,3} |
| `VectorProperties.AtExamples` | simple_vector.h:126-133 | on a vector of size 3, At(3) is out_of_range and At(2) is the last element |
| `VectorProperties.ResizeExposesDefaults` | simple_vector.h:140-183 | growing with Resize keeps the contents and appends default values up to n |

## Left out

- Heap management is not modelled: `delete[]`, the destructors and the order of deallocation have no Dafny counterpart. Allocation is `new` in Dafny and cannot fail, so `bad_alloc` is out of scope.
- In the growth branch of Resize, `array_.SetPtr(array_tmp.Release())` (simple_vector.h:179) overwrites the old handle without freeing it, which is a leak. The model cannot observe memory, so the leak is noted here and not modelled.
- Exclusive ownership across objects is a caller obligation in the model. Swap, CopyAssign and MoveAssign require the two vectors' buffer objects to be distinct unless the vectors are the same object. In C++ each vector holds its own `ArrayPtr` as a subobject.
- `ArrayPtr::operator=(const ArrayPtr&&)` (array_ptr.h:34-39) is not modelled. It calls `swap` on a const object, so it is ill-formed if instantiated, and nothing uses it.
- `ArrayPtrs.ArrayPtr.Sized`: it does not say what values the fresh block holds. `new Type[n]` default-initialises them (indeterminate for scalar types), and Dafny's default for a type parameter is not visible to the verifier. Every caller in the vector overwrites the whole block.
- The rvalue overloads of `PushBack`, `Insert` and `swap` have the same effect on values as the copy overloads, so each is modelled once. The same holds for the `const` overloads of `operator[]`, `At`, `begin` and `end`.
- `SimpleVectors.SimpleVector.Insert`: the value is passed by value, while the source takes `const Type&` (simple_vector.h:271) and reads it at :279, after the shift at :278. An Insert whose value refers to an element of the same vector is therefore not captured. Example: {1,2,3} with capacity 4, inserting `v[1]` at the front. The shift moves 1 into slot 1 before the reference is read, so the source gives {1,1,2,3}, while the model gives {2,1,2,3}. When Insert reallocates, Resize first moves every element out of the old block (the `std::move` at :171). The old block is leaked at :179 but still exists, so the reference reads the moved-from element. For a type whose move leaves the source as it was (`int`, say) that is still the right value. For a type whose move empties the source (`std::string`, say) it is not, and the model does not capture that either.
- `SimpleVectors.SimpleVector.PushBack`: the item is passed by value, while the source takes `const Type&` (simple_vector.h:254) and reads it at :257, after `Resize(size_ + 1)` at :256. Without growth nothing moves before the read, so the model agrees. On a full vector, though, the growth branch of Resize moves every element out of the old block (:171) before the read. An item that refers to an element of the same vector then reads a moved-from value. Example: `PushBack(v[0])` on a full vector of `std::string` appends an empty string in common library implementations, while the model appends the old `v[0]`. The model does not capture this.
- The `(size, Type&&)` constructor (simple_vector.h:78-83) is not modelled. It moves from the same object repeatedly, and a moved-from value is unspecified.
- Iterators are indices. `begin`, `end`, `cbegin` and `cend` are not separate members: `Elements()` is the range they delimit. The unreachable `pos == end()` branch of Erase (simple_vector.h:305-307) sits behind the assert at :304 and is dropped.
- Generic element types: `Type{}` is the value `dflt` given to the constructors. The copy and move constructors take it from the source. In C++ `Type{}` is one value per type: the model never combines two vectors' defaults, because Swap, CopyAssign and MoveAssign move only buffers, sizes and capacities, and each vector keeps its own `dflt`, which only its own Resize and Reserve read. The comparison operators take the element order `less` as a parameter, and their lemmas assume it is a strict total order where they need one.
- `size_t` arithmetic is unbounded `nat`, so overflow of `size_ + 1` and `capacity_ * 2` is not modelled.
- The comparison operators are stated on the two vectors' `Elements()`, not as members that take two vector objects.

## Findings

| source | as written | input that shows it | evidently intended | confidence | as-written member | corrected member |
|---|---|---|---|---|---|---|
| simple_vector.h:278 | Insert shifts the tail with `std::copy(start, end() - 1, start + 1)` (and `std::move` at :291). The destination start lies inside the source range, which breaks the precondition in section [alg.copy] of ISO/IEC 14882 | inserting 9 at the front of {1, 2, 3}: an element-by-element forward copy gives {9, 1, 1, 1} | {9, 1, 2, 3}: the value at pos, then the old tail shifted one slot right (the doc comment at :267-268) | not executed; this is undefined behaviour. Library implementations that lower the copy of trivially copyable types to `memmove` give the intended result, while an element-wise loop gives the shown one | `SimpleVectors.InsertAsWrittenCounterexample` | `SimpleVectors.SimpleVector.Insert` |
