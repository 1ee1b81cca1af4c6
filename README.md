# Sparse vectors and matrices

A model of the two generic sparse containers in `Lab_4.cpp`, with the element
type instantiated as `int`, so that a default-constructed element is `0` and
`+` and `*` are exact.

- `SparseVector` (module `SparseVectors`, `sparse_vector.dfy`) is a class with a
  logical length `size` and the map `data` of stored entries. `size` is a
  `const` field, so no operation can change it after construction.
  - The mutable `operator[]` is the method `At`. It checks the bounds, then
    materialises the entry and returns its value.
  - `v[i] = x` is the method `Assign`: `At` followed by a write through the
    returned reference.
  - The read-only `operator[]` is the function `Read`, and `getSize` is
    `GetSize`.
  - `dotProduct` is the method `DotProduct`. It walks the stored keys in an
    order the verifier does not know (`var index :| index in todo`).
- `SparseMatrix` (module `SparseMatrices`, `sparse_matrix.dfy`) is the same idea,
  with `const` fields `rows` and `cols` and a map keyed by `(row, col)`. It has
  `At`, `Assign` and `Read`, plus `Transpose` and `Add` (`operator+`), which loop
  over the keys in an arbitrary order.
- Errors. The thrown exceptions become values (module `Errors`, `errors.dfy`):
  - `OutOfRange` stands for `std::out_of_range`.
  - `InvalidArgument` stands for `std::invalid_argument`.
  - `Result<T>` is returned by the operations that return a value, and
    `Outcome` by the assignments.
- Invariant. Each class's `Valid()` is the invariant "every stored key is
  inside the size or shape". Every operation keeps it.
- Specification functions. Each loop method is proved against a function:
  - `SparseDot` is the sum over the keys stored in both vectors, and
    `DenseDot` is the dense reference sum over `0 .. size-1`.
  - `Transposed` gives the storage of the transpose.
  - `Sum` gives the storage of the sum.

  Lemmas about these functions state the properties the library promises:
  dense equivalence, symmetry, order independence, involution, size
  preservation, pointwise addition and commutativity.
- `demo.dfy` (module `Demo`) replays the driver's scenario with integers.

## Model

| member | source | states |
|---|---|---|
| `SparseVectors.SparseVector.constructor` | Lab_4.cpp:16 | a new vector has the given length and no stored entries, and satisfies the in-bounds invariant |
| `SparseVectors.SparseVector.Read` | Lab_4.cpp:24-27 | the read-only `operator[]` returns the stored value when there is one; under the invariant, every index at or past `size` reads as 0; it is a function, so it changes nothing |
| `SparseVectors.SparseVector.At` | Lab_4.cpp:18-22 | fails with OutOfRange exactly when `index >= size`, and then leaves the storage alone; otherwise returns the old value (0 if absent), makes `index` a stored key and keeps any existing value; no readable value changes; the storage grows by one exactly when the key was new; the invariant is kept |
| `SparseVectors.SparseVector.Assign` | Lab_4.cpp:18-22 | writing through the mutable `operator[]` fails with OutOfRange exactly when `index >= size`; otherwise only the entry at `index` changes, to the assigned value |
| `SparseVectors.SparseVector.DotProduct` | Lab_4.cpp:31-42 | fails with InvalidArgument exactly when the lengths differ; otherwise the loop over this vector's keys, taken in any order, returns the sum of the products over the keys stored in both vectors, which equals the dense dot product over `0 .. size-1` |
| `SparseVectors.SumOverRemove` | Lab_4.cpp:35-40 | the sum of the products does not depend on the order of the walk: any stored key may be visited first |
| `SparseVectors.SumOverDropZeros` | Lab_4.cpp:36-39 | positions whose product is zero can be left out of the sum, so skipping the keys that `other` does not store loses nothing |
| `SparseVectors.DenseDotIsSumOverRange` | Lab_4.cpp:31-42 | the dense dot product over `0 .. n-1` equals the unordered sum over the set of positions below `n` |
| `SparseVectors.SparseDotIsDense` | Lab_4.cpp:31-42 | when every key stored in this vector is below `n`, the sparse dot product equals the dense one over `0 .. n-1` |
| `SparseVectors.SumOverSymmetric` | Lab_4.cpp:38 | over any set of positions, the sum of products is the same with the operands swapped |
| `SparseVectors.SparseDotSymmetric` | Lab_4.cpp:31-42 | the dot product is symmetric in its two operands |
| `SparseMatrices.SparseMatrix.constructor` | Lab_4.cpp:67 | a new matrix has the given shape and no stored entries, and satisfies the in-bounds invariant |
| `SparseMatrices.SparseMatrix.Read` | Lab_4.cpp:75-78 | the read-only `operator()` returns the stored value when there is one; under the invariant, every position outside the shape reads as 0; it changes nothing |
| `SparseMatrices.SparseMatrix.At` | Lab_4.cpp:69-73 | fails with OutOfRange exactly when `row >= rows` or `col >= cols`, and then leaves the storage alone; otherwise returns the old value (0 if absent), makes `(row, col)` a stored key, keeps any existing value and changes no other entry; the storage grows by one exactly when the key was new |
| `SparseMatrices.SparseMatrix.Assign` | Lab_4.cpp:69-73 | writing through the mutable `operator()` fails with OutOfRange exactly when the position is outside the shape; otherwise only that entry changes, to the assigned value |
| `SparseMatrices.SparseMatrix.Transpose` | Lab_4.cpp:80-86 | returns a fresh `cols` by `rows` matrix that keeps the invariant and whose storage is `Transposed` of this one; the bounds-checked write inside the loop is proved never to fail |
| `SparseMatrices.Transposed` | Lab_4.cpp:80-86 | the transpose stores `(c, r)` exactly when the original stores `(r, c)`, with the same value |
| `SparseMatrices.TransposedAt` | Lab_4.cpp:80-86 | reading the transpose at `(c, r)` gives what the original reads at `(r, c)`, for every position, stored or not |
| `SparseMatrices.TransposedInBounds` | Lab_4.cpp:81-83 | the keys of an `rows` by `cols` matrix, once swapped, fit the `cols` by `rows` shape, so the transpose keeps the invariant |
| `SparseMatrices.TransposeInvolution` | Lab_4.cpp:80-86 | transposing twice gives back the original storage; the shape is swapped twice, so it is the original shape too |
| `SparseMatrices.TransposedSize` | Lab_4.cpp:80-86 | the transpose stores exactly as many entries as the original |
| `SparseMatrices.TransposedUpdate` | Lab_4.cpp:83 | storing `(r, c) -> v` in the original stores `(c, r) -> v` in its transpose |
| `SparseMatrices.TransposeStep` | Lab_4.cpp:82-84 | one iteration of the transpose loop extends the partial transpose by the swapped entry of the key it visits |
| `SparseMatrices.SparseMatrix.Add` | Lab_4.cpp:88-98 | fails with InvalidArgument exactly when the row or column counts differ; otherwise returns a fresh matrix of the same shape that keeps the invariant and whose storage is `Sum` of the operands; neither operand is modified (no modifies clause) |
| `SparseMatrices.SumKeys` | Lab_4.cpp:91-96 | the keys stored in the sum are the union of both operands' keys |
| `SparseMatrices.SumAt` | Lab_4.cpp:88-98 | at every position, stored or not, the sum reads as the sum of what the two operands read |
| `SparseMatrices.SumInBounds` | Lab_4.cpp:88-98 | the sum of two matrices of one shape stays inside that shape |
| `SparseMatrices.SumStep` | Lab_4.cpp:94-96 | one `+=` iteration adds `other`'s value into the partial sum at the key it visits (starting from 0 where the key was absent) |
| `SparseMatrices.SumCommutes` | Lab_4.cpp:88-98 | matrix addition is commutative |
| `Demo.VectorScenario` | Lab_4.cpp:110-123 | with the driver's vectors (values doubled), the dot product is `Ok(12)`, four times the driver's 3.0 |
| `Demo.SumExample` | Lab_4.cpp:127-140 | the driver's two matrices (values doubled) add up to `(0,1) = 7, (1,2) = 7, (2,2) = 8` |
| `Demo.MatrixSumScenario` | Lab_4.cpp:127-140 | building the driver's matrices through `Assign` and adding them with `Add` gives that storage |
| `Demo.TransposeExample` | Lab_4.cpp:127-129 | the driver's first matrix transposes to `(1,0) = 4, (2,1) = 7` |
| `Demo.TransposeScenario` | Lab_4.cpp:144 | building that matrix through `Assign` and calling `Transpose` gives that storage |

## Left out

- `print` of both classes and the console output of `main` (Lab_4.cpp:44-48, 100-104, 107-149): console I/O with no logic of its own. The driver's values survive only in the `Demo` scenarios.
- `pair_hash` (Lab_4.cpp:52-57): the hash only serves `std::unordered_map`. A Dafny `map` keyed by `(nat, nat)` compares keys by equality, so hash collisions cannot change results.
- The element type is `int`, not a generic `T` or `double`. Floating-point rounding is not modelled, and neither is overflow of a bounded integer element type.
- Sizes and indices are unbounded `nat`s. The 64-bit width of `size_t` is not modelled; the source does no index arithmetic that could wrap.
- `At` returns the element's value, not a reference to it. A write through that reference is modelled by `Assign`, so aliasing of references into the map is not captured.
- The iteration order of `std::unordered_map` is not modelled. Each loop picks an arbitrary remaining key, and the contracts hold for every order.
- `GetSize` (Lab_4.cpp:29) has no row above: it returns the `const` field `size`, and any contract for it could only repeat that.
