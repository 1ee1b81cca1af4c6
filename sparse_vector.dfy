/** A sparse vector of integers: a fixed logical length and a map holding only
    the entries that were stored. An index with no entry reads as 0, the value
    of a default-constructed element. */
module SparseVectors {
  import opened Errors

  /** The value at index `i` of a storage map: the stored value, or 0. */
  function Get(m: map<nat, int>, i: nat): int
  {
    if i in m then m[i] else 0
  }

  /** The representation invariant: every stored index lies below `size`. */
  ghost predicate InBounds(m: map<nat, int>, size: nat)
  {
    forall i :: i in m ==> i < size
  }

  /** The contribution of index `i` to the dot product of `a` and `b`. */
  function Term(a: map<nat, int>, b: map<nat, int>, i: nat): int
  {
    Get(a, i) * Get(b, i)
  }

  /** Some element of a non-empty set. */
  ghost function Pick(s: set<nat>): (x: nat)
    requires s != {}
    ensures x in s
  {
    var x :| x in s; x
  }

  /** The sum of `Term(a, b, i)` over the indices `i` of `s`, taken in some order. */
  ghost function SumOver(s: set<nat>, a: map<nat, int>, b: map<nat, int>): int
    decreases s
  {
    if s == {} then 0
    else
      var i := Pick(s);
      Term(a, b, i) + SumOver(s - {i}, a, b)
  }

  /** What the sparse dot product computes: the products over the indices
      stored in both maps. */
  ghost function SparseDot(a: map<nat, int>, b: map<nat, int>): int
  {
    SumOver(a.Keys * b.Keys, a, b)
  }

  /** The dense dot product over positions 0 .. n-1, the reference definition. */
  function DenseDot(a: map<nat, int>, b: map<nat, int>, n: nat): int
  {
    if n == 0 then 0 else DenseDot(a, b, n - 1) + Term(a, b, n - 1)
  }

  /** The positions 0 .. n-1. */
  function Range(n: nat): (s: set<nat>)
    ensures forall i: nat :: i in s <==> i < n
  {
    if n == 0 then {} else Range(n - 1) + {n - 1}
  }

  /** The order in which the indices are summed does not matter: any index
      of `s` may be taken first. */
  lemma {:induction false} SumOverRemove(s: set<nat>, a: map<nat, int>, b: map<nat, int>, x: nat)
    requires x in s
    ensures SumOver(s, a, b) == Term(a, b, x) + SumOver(s - {x}, a, b)
    decreases s
  {
    var y := Pick(s);
    if y != x {
      calc {
        SumOver(s, a, b);
        Term(a, b, y) + SumOver(s - {y}, a, b);
        { SumOverRemove(s - {y}, a, b, x); }
        Term(a, b, y) + Term(a, b, x) + SumOver(s - {y} - {x}, a, b);
        { assert s - {y} - {x} == s - {x} - {y}; }
        Term(a, b, x) + Term(a, b, y) + SumOver(s - {x} - {y}, a, b);
        { SumOverRemove(s - {x}, a, b, y); }
        Term(a, b, x) + SumOver(s - {x}, a, b);
      }
    }
  }

  /** Indices whose term is zero can be dropped from the sum. */
  lemma {:induction false} SumOverDropZeros(s: set<nat>, t: set<nat>, a: map<nat, int>, b: map<nat, int>)
    requires t <= s
    requires forall i :: i in s && i !in t ==> Term(a, b, i) == 0
    ensures SumOver(s, a, b) == SumOver(t, a, b)
    decreases s
  {
    if s != t {
      var x :| x in s && x !in t;
      SumOverRemove(s, a, b, x);
      SumOverDropZeros(s - {x}, t, a, b);
    }
  }

  /** The dense dot product is the sum over the whole range. */
  lemma {:induction false} DenseDotIsSumOverRange(a: map<nat, int>, b: map<nat, int>, n: nat)
    ensures DenseDot(a, b, n) == SumOver(Range(n), a, b)
  {
    if n > 0 {
      SumOverRemove(Range(n), a, b, n - 1);
      assert Range(n) - {n - 1} == Range(n - 1);
      DenseDotIsSumOverRange(a, b, n - 1);
    }
  }

  /** Dense equivalence: when every index stored in `a` is below `n`, the sparse
      dot product equals the dense one over positions 0 .. n-1. */
  lemma SparseDotIsDense(a: map<nat, int>, b: map<nat, int>, n: nat)
    requires InBounds(a, n)
    ensures SparseDot(a, b) == DenseDot(a, b, n)
  {
    forall i | i in Range(n) && i !in a.Keys * b.Keys
      ensures Term(a, b, i) == 0
    {
      assert Get(a, i) == 0 || Get(b, i) == 0;
    }
    SumOverDropZeros(Range(n), a.Keys * b.Keys, a, b);
    DenseDotIsSumOverRange(a, b, n);
  }

  /** Swapping the operands leaves each partial sum unchanged. */
  lemma {:induction false} SumOverSymmetric(s: set<nat>, a: map<nat, int>, b: map<nat, int>)
    ensures SumOver(s, a, b) == SumOver(s, b, a)
    decreases s
  {
    if s != {} {
      var x := Pick(s);
      SumOverSymmetric(s - {x}, a, b);
    }
  }

  /** The dot product is symmetric in its operands. */
  lemma SparseDotSymmetric(a: map<nat, int>, b: map<nat, int>)
    ensures SparseDot(a, b) == SparseDot(b, a)
  {
    assert a.Keys * b.Keys == b.Keys * a.Keys;
    SumOverSymmetric(a.Keys * b.Keys, a, b);
  }

  /** `SparseVector<T>` with `T` = int. */
  class SparseVector {
    /** The logical length, fixed at construction. */
    const size: nat
    /** The stored entries. */
    var data: map<nat, int>

    ghost predicate Valid()
      reads this
    {
      InBounds(data, size)
    }

    /** A vector of length `n` with no stored entries. */
    constructor (n: nat)
      ensures size == n && data == map[]
      ensures Valid()
    {
      size := n;
      data := map[];
    }

    /** The logical length. */
    function GetSize(): (n: nat)
      reads this
    {
      size
    }

    /** The read-only `operator[]`: no bounds check and no change to the
        storage; an index without an entry, in bounds or not, reads as 0. */
    function Read(index: nat): (v: int)
      reads this
      ensures index in data ==> v == data[index]
      ensures Valid() && index >= size ==> v == 0
    {
      Get(data, index)
    }

    /** The mutable `operator[]`: out of range when `index >= size`; otherwise
        the entry at `index` is materialised (with 0 if it was absent) and its
        value returned. No readable value changes, and the storage grows by at
        most the one entry. */
    method At(index: nat) returns (r: Result<int>)
      requires Valid()
      modifies this
      ensures Valid()
      ensures index >= size ==> r == Err(OutOfRange) && data == old(data)
      ensures index < size ==> r == Ok(Get(old(data), index)) && index in data
      ensures index < size ==> data == old(data)[index := Get(old(data), index)]
      ensures forall i :: Get(data, i) == Get(old(data), i)
      ensures |data| == if index < size && index !in old(data) then old(|data|) + 1 else old(|data|)
    {
      if index >= size {
        return Err(OutOfRange);
      }
      data := data[index := Get(data, index)];
      r := Ok(data[index]);
    }

    /** `v[index] = value`: the mutable `operator[]` followed by an assignment
        through the reference it returns. */
    method Assign(index: nat, value: int) returns (r: Outcome)
      requires Valid()
      modifies this
      ensures Valid()
      ensures index >= size ==> r == Fail(OutOfRange) && data == old(data)
      ensures index < size ==> r == Pass && data == old(data)[index := value]
    {
      var access := At(index);
      if access.Err? {
        return Fail(access.error);
      }
      data := data[index := value];
      r := Pass;
    }

    /** `dotProduct`: invalid when the lengths differ; otherwise a walk over
        this vector's stored entries in an arbitrary order, adding the product
        for every index that `other` also stores. The result is the dense dot
        product of the two vectors. */
    method DotProduct(other: SparseVector) returns (r: Result<int>)
      requires Valid() && other.Valid()
      ensures r.Err? <==> size != other.size
      ensures r.Err? ==> r.error == InvalidArgument
      ensures r.Ok? ==> r.value == SparseDot(data, other.data)
      ensures r.Ok? ==> r.value == DenseDot(data, other.data, size)
    {
      if size != other.size {
        return Err(InvalidArgument);
      }
      var result := 0;
      var todo := data.Keys;
      while todo != {}
        invariant todo <= data.Keys
        invariant result == SumOver((data.Keys - todo) * other.data.Keys, data, other.data)
        decreases todo
      {
        var index :| index in todo;
        ghost var done := (data.Keys - todo) * other.data.Keys;
        if index in other.data {
          SumOverRemove(done + {index}, data, other.data, index);
          assert done + {index} - {index} == done;
          result := result + data[index] * other.data[index];
          assert (data.Keys - (todo - {index})) * other.data.Keys == done + {index};
        } else {
          assert (data.Keys - (todo - {index})) * other.data.Keys == done;
        }
        todo := todo - {index};
      }
      assert data.Keys - {} == data.Keys;
      SparseDotIsDense(data, other.data, size);
      r := Ok(result);
    }
  }
}
