/** The demonstration driver's scenarios with integer elements. The driver's
    values (2.0, 3.5, 1.5, 4.0) are doubled so that they are integers: a dot
    product then comes out four times as large, a sum or a transpose twice. */
module Demo {
  import opened Errors
  import opened SparseVectors
  import opened SparseMatrices

  /** Two length-5 vectors, v[1] = 4, v[3] = 7 and w[1] = 3, w[2] = 8: only
      index 1 is stored in both, so the dot product is 4 * 3. */
  method VectorScenario() returns (dot: Result<int>)
    ensures dot == Ok(12)
  {
    var v := new SparseVector(5);
    var w := new SparseVector(5);
    var written := v.Assign(1, 4);
    written := v.Assign(3, 7);
    written := w.Assign(1, 3);
    written := w.Assign(2, 8);
    ghost var a, b := map[1 := 4, 3 := 7], map[1 := 3, 2 := 8];
    assert v.data == a && w.data == b;
    assert Term(a, b, 0) == 0 && Term(a, b, 1) == 12 && Term(a, b, 2) == 0;
    assert Term(a, b, 3) == 0 && Term(a, b, 4) == 0;
    assert DenseDot(a, b, 5) == 12;
    dot := v.DotProduct(w);
  }

  /** The sum of the two matrices of the driver's scenario, on their storage. */
  lemma SumExample()
    ensures Sum(map[(0, 1) := 4, (1, 2) := 7], map[(0, 1) := 3, (2, 2) := 8])
         == map[(0, 1) := 7, (1, 2) := 7, (2, 2) := 8]
  {
  }

  /** The transpose of the driver's first matrix, on its storage. */
  lemma TransposeExample()
    ensures Transposed(map[(0, 1) := 4, (1, 2) := 7]) == map[(1, 0) := 4, (2, 1) := 7]
  {
    var t := Transposed(map[(0, 1) := 4, (1, 2) := 7]);
    assert Swap((1, 0)) == (0, 1) && Swap((2, 1)) == (1, 2);
    assert t.Keys == {(1, 0), (2, 1)};
  }

  /** Two 3 by 3 matrices, A(0,1) = 4, A(1,2) = 7 and B(0,1) = 3, B(2,2) = 8:
      their sum stores (0,1) = 7, (1,2) = 7 and (2,2) = 8. */
  method MatrixSumScenario() returns (sum: map<Key, int>)
    ensures sum == map[(0, 1) := 7, (1, 2) := 7, (2, 2) := 8]
  {
    var a := new SparseMatrix(3, 3);
    var b := new SparseMatrix(3, 3);
    var written := a.Assign(0, 1, 4);
    written := a.Assign(1, 2, 7);
    assert a.data == map[(0, 1) := 4, (1, 2) := 7];
    written := b.Assign(0, 1, 3);
    written := b.Assign(2, 2, 8);
    assert b.data == map[(0, 1) := 3, (2, 2) := 8];
    var added := a.Add(b);
    sum := added.value.data;
    SumExample();
  }

  /** The transpose of A(0,1) = 4, A(1,2) = 7 stores (1,0) = 4 and (2,1) = 7. */
  method TransposeScenario() returns (transposed: map<Key, int>)
    ensures transposed == map[(1, 0) := 4, (2, 1) := 7]
  {
    var a := new SparseMatrix(3, 3);
    var written := a.Assign(0, 1, 4);
    written := a.Assign(1, 2, 7);
    assert a.data == map[(0, 1) := 4, (1, 2) := 7];
    var t := a.Transpose();
    transposed := t.data;
    TransposeExample();
  }
}
