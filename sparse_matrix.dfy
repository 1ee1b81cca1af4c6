/** A sparse matrix of integers: a fixed shape and a map, keyed by
    (row, column), holding only the entries that were stored. A position with
    no entry reads as 0. */
module SparseMatrices {
  import opened Errors

  type Key = (nat, nat)

  /** The value at (`row`, `col`) of a storage map: the stored value, or 0. */
  function Get(m: map<Key, int>, row: nat, col: nat): int
  {
    if (row, col) in m then m[(row, col)] else 0
  }

  /** The representation invariant: every stored key lies inside the shape. */
  ghost predicate InBounds(m: map<Key, int>, rows: nat, cols: nat)
  {
    forall k :: k in m ==> k.0 < rows && k.1 < cols
  }

  /** The key with its two coordinates exchanged. */
  function Swap(k: Key): Key
  {
    (k.1, k.0)
  }

  /** The storage of the transposed matrix: every entry (r, c) -> v becomes
      (c, r) -> v. */
  function Transposed(m: map<Key, int>): (t: map<Key, int>)
    ensures forall k :: k in t <==> Swap(k) in m
    ensures forall k :: k in m ==> Swap(k) in t && t[Swap(k)] == m[k]
  {
    map k | k in m :: Swap(k) := m[k]
  }

  /** The storage of the sum: every key stored in either operand, holding the
      sum of the two values read at it. */
  function Sum(a: map<Key, int>, b: map<Key, int>): map<Key, int>
  {
    map k | k in a.Keys + b.Keys :: Get(a, k.0, k.1) + Get(b, k.0, k.1)
  }

  /** Reading the transpose at (c, r) is reading the original at (r, c), for
      every position, stored or not. */
  lemma TransposedAt(m: map<Key, int>, r: nat, c: nat)
    ensures Get(Transposed(m), c, r) == Get(m, r, c)
  {
  }

  /** Transposing swaps the bounds of the shape. */
  lemma TransposedInBounds(m: map<Key, int>, rows: nat, cols: nat)
    requires InBounds(m, rows, cols)
    ensures InBounds(Transposed(m), cols, rows)
  {
  }

  /** Transposing twice gives back the original storage. */
  lemma TransposeInvolution(m: map<Key, int>)
    ensures Transposed(Transposed(m)) == m
  {
  }

  /** Adding one entry to the original adds the swapped entry to the transpose. */
  lemma TransposedUpdate(m: map<Key, int>, k: Key, v: int)
    ensures Transposed(m[k := v]) == Transposed(m)[Swap(k) := v]
  {
  }

  /** One step of the transposing walk: moving `key` from the keys still to
      visit to the visited ones adds its swapped entry to the partial result. */
  lemma TransposeStep(m: map<Key, int>, todo: set<Key>, key: Key)
    requires todo <= m.Keys && key in todo
    ensures Transposed(m - (todo - {key})) == Transposed(m - todo)[Swap(key) := m[key]]
  {
  }

  /** Transposing keeps the number of stored entries. */
  lemma {:induction false} TransposedSize(m: map<Key, int>)
    ensures |Transposed(m)| == |m|
    decreases |m|
  {
    if m != map[] {
      var k :| k in m;
      var rest := m - {k};
      assert m == rest[k := m[k]];
      assert |rest| == |m| - 1 by {
        assert rest.Keys == m.Keys - {k};
      }
      TransposedSize(rest);
      TransposedUpdate(rest, k, m[k]);
      assert Swap(k) !in Transposed(rest);
    }
  }

  /** The stored keys of the sum are those stored in either operand. */
  lemma SumKeys(a: map<Key, int>, b: map<Key, int>)
    ensures Sum(a, b).Keys == a.Keys + b.Keys
  {
  }

  /** Dense addition: at every position, stored or not, the sum reads as the
      sum of what the operands read. */
  lemma SumAt(a: map<Key, int>, b: map<Key, int>, r: nat, c: nat)
    ensures Get(Sum(a, b), r, c) == Get(a, r, c) + Get(b, r, c)
  {
  }

  /** The sum of two matrices of the same shape stays inside that shape. */
  lemma SumInBounds(a: map<Key, int>, b: map<Key, int>, rows: nat, cols: nat)
    requires InBounds(a, rows, cols) && InBounds(b, rows, cols)
    ensures InBounds(Sum(a, b), rows, cols)
  {
  }

  /** One step of the adding walk: moving `key` from the keys of `b` still to
      visit to the visited ones adds `b[key]` into the partial sum at `key`. */
  lemma SumStep(a: map<Key, int>, b: map<Key, int>, todo: set<Key>, key: Key)
    requires todo <= b.Keys && key in todo
    ensures var partial := Sum(a, b - todo);
      Sum(a, b - (todo - {key})) == partial[key := Get(partial, key.0, key.1) + b[key]]
  {
  }

  /** Addition is commutative. */
  lemma SumCommutes(a: map<Key, int>, b: map<Key, int>)
    ensures Sum(a, b) == Sum(b, a)
  {
  }

  /** `SparseMatrix<T>` with `T` = int. */
  class SparseMatrix {
    /** The shape, fixed at construction. */
    const rows: nat
    const cols: nat
    /** The stored entries. */
    var data: map<Key, int>

    ghost predicate Valid()
      reads this
    {
      InBounds(data, rows, cols)
    }

    /** A `r` by `c` matrix with no stored entries. */
    constructor (r: nat, c: nat)
      ensures rows == r && cols == c && data == map[]
      ensures Valid()
    {
      rows, cols := r, c;
      data := map[];
    }

    /** The read-only `operator()`: no bounds check and no change to the
        storage; a position without an entry, inside the shape or not, reads
        as 0. */
    function Read(row: nat, col: nat): (v: int)
      reads this
      ensures (row, col) in data ==> v == data[(row, col)]
      ensures Valid() && (row >= rows || col >= cols) ==> v == 0
    {
      Get(data, row, col)
    }

    /** The mutable `operator()`: out of range when `row >= rows` or
        `col >= cols`; otherwise the entry at (row, col) is materialised
        (with 0 if it was absent) and its value returned. No readable value
        changes, and the storage grows by at most the one entry. */
    method At(row: nat, col: nat) returns (r: Result<int>)
      requires Valid()
      modifies this
      ensures Valid()
      ensures row >= rows || col >= cols ==> r == Err(OutOfRange) && data == old(data)
      ensures row < rows && col < cols ==>
        r == Ok(Get(old(data), row, col)) && (row, col) in data &&
        data == old(data)[(row, col) := Get(old(data), row, col)]
      ensures forall i, j :: Get(data, i, j) == Get(old(data), i, j)
      ensures |data| == if row < rows && col < cols && (row, col) !in old(data) then old(|data|) + 1 else old(|data|)
    {
      if row >= rows || col >= cols {
        return Err(OutOfRange);
      }
      data := data[(row, col) := Get(data, row, col)];
      r := Ok(data[(row, col)]);
    }

    /** `m(row, col) = value`: the mutable `operator()` followed by an
        assignment through the reference it returns. */
    method Assign(row: nat, col: nat, value: int) returns (r: Outcome)
      requires Valid()
      modifies this
      ensures Valid()
      ensures row >= rows || col >= cols ==> r == Fail(OutOfRange) && data == old(data)
      ensures row < rows && col < cols ==> r == Pass && data == old(data)[(row, col) := value]
    {
      var access := At(row, col);
      if access.Err? {
        return Fail(access.error);
      }
      data := data[(row, col) := value];
      r := Pass;
    }

    /** `transpose`: a fresh `cols` by `rows` matrix, filled by a walk over the
        stored entries in an arbitrary order, each written through the
        bounds-checked accessor at the swapped position. That access never
        fails, because every stored key lies inside the shape. */
    method Transpose() returns (t: SparseMatrix)
      requires Valid()
      ensures fresh(t) && t.Valid()
      ensures t.rows == cols && t.cols == rows
      ensures t.data == Transposed(data)
    {
      t := new SparseMatrix(cols, rows);
      var todo := data.Keys;
      while todo != {}
        invariant todo <= data.Keys
        invariant fresh(t) && t.Valid()
        invariant t.rows == cols && t.cols == rows
        invariant t.data == Transposed(data - todo)
        decreases todo
      {
        var key :| key in todo;
        var written := t.Assign(key.1, key.0, data[key]);
        assert written == Pass;
        TransposeStep(data, todo, key);
        todo := todo - {key};
      }
      assert data - {} == data;
    }

    /** `operator+`: invalid when the shapes differ; otherwise a fresh matrix of
        the same shape that starts as a copy of this one's storage, into which
        every entry of `other` is added, in an arbitrary order, inserting 0
        first where the key was absent. Neither operand changes. */
    method Add(other: SparseMatrix) returns (r: Result<SparseMatrix>)
      requires Valid() && other.Valid()
      ensures r.Err? <==> rows != other.rows || cols != other.cols
      ensures r.Err? ==> r.error == InvalidArgument
      ensures r.Ok? ==> fresh(r.value) && r.value.Valid()
      ensures r.Ok? ==> r.value.rows == rows && r.value.cols == cols
      ensures r.Ok? ==> r.value.data == Sum(data, other.data)
    {
      if rows != other.rows || cols != other.cols {
        return Err(InvalidArgument);
      }
      var result := new SparseMatrix(rows, cols);
      result.data := data;
      var todo := other.data.Keys;
      assert data == Sum(data, other.data - todo);
      while todo != {}
        invariant todo <= other.data.Keys
        invariant fresh(result)
        invariant result.rows == rows && result.cols == cols
        invariant result.data == Sum(data, other.data - todo)
        decreases todo
      {
        var key :| key in todo;
        SumStep(data, other.data, todo, key);
        result.data := result.data[key := Get(result.data, key.0, key.1) + other.data[key]];
        todo := todo - {key};
      }
      assert other.data - {} == other.data;
      SumInBounds(data, other.data, rows, cols);
      r := Ok(result);
    }
  }
}
