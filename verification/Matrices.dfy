/** Matrices as lists of rows, and the list helpers the kernel is built from. */
module Matrices {
  import opened Sums

  type Vector = seq<real>
  type Matrix = seq<seq<real>>

  ghost predicate IsMatrix(m: Matrix, rows: int, columns: int) {
    |m| == rows && forall i :: 0 <= i < rows ==> |m[i]| == columns
  }

  function Get(v: Vector, i: int): real {
    if 0 <= i < |v| then v[i] else 0.0
  }

  function At(m: Matrix, i: int, j: int): real {
    if 0 <= i < |m| then Get(m[i], j) else 0.0
  }

  function EntriesOf(m: Matrix): Entries {
    (i: int, j: int) => At(m, i, j)
  }

  /** The matrix m holds the entries f. */
  ghost predicate Holds(m: Matrix, rows: int, columns: int, f: Entries) {
    IsMatrix(m, rows, columns) && forall i, j :: 0 <= i < rows && 0 <= j < columns ==> m[i][j] == f(i, j)
  }

  /** One more row. */
  lemma HoldsAppend(m: Matrix, rows: nat, columns: int, f: Entries, row: Vector)
    requires Holds(m, rows, columns, f) && |row| == columns && forall j :: 0 <= j < columns ==> row[j] == f(rows, j)
    ensures Holds(m + [row], rows + 1, columns, f)
  {
  }

  lemma HoldsAgree(m: Matrix, rows: int, columns: int, f: Entries)
    requires Holds(m, rows, columns, f)
    ensures Agree(rows, columns, EntriesOf(m), f)
  {
  }

  /** No two matrices hold the same entries. */
  lemma HoldsOnce(a: Matrix, b: Matrix, rows: int, columns: int, f: Entries)
    requires Holds(a, rows, columns, f) && Holds(b, rows, columns, f)
    ensures a == b
  {
    forall i | 0 <= i < rows ensures a[i] == b[i] {
    }
  }

  lemma HoldsExt(m: Matrix, rows: int, columns: int, f: Entries, g: Entries)
    requires Holds(m, rows, columns, f) && Agree(rows, columns, f, g)
    ensures Holds(m, rows, columns, g)
  {
  }

  /** Stops at the shorter of the two, as zip does. */
  function Dot(left: Vector, right: Vector): real {
    Sum(if |left| <= |right| then |left| else |right|, (i: int) => Times(Get(left, i), Get(right, i)))
  }

  /** The number of columns every row has. */
  function CommonWidth(m: Matrix): (width: nat)
    requires m != []
    ensures forall i :: 0 <= i < |m| ==> width <= |m[i]|
    ensures exists i :: 0 <= i < |m| && width == |m[i]|
  {
    if |m| == 1 then |m[0]|
    else
      var rest := CommonWidth(m[1..]);
      assert forall i :: 1 <= i < |m| ==> m[i] == m[1..][i - 1];
      if |m[0]| <= rest then |m[0]| else rest
  }

  function Transpose(m: Matrix): Matrix {
    if m == [] then []
    else
      var width := CommonWidth(m);
      seq(width, (j: int) requires 0 <= j < width =>
        seq(|m|, (i: int) requires 0 <= i < |m| => m[i][j]))
  }

  function Vecmat(vector: Vector, matrix: Matrix): Vector {
    var columns := Transpose(matrix);
    seq(|columns|, (j: int) requires 0 <= j < |columns| => Dot(vector, columns[j]))
  }

  function Matmul(left: Matrix, right: Matrix): Matrix {
    if left == [] || right == [] then []
    else seq(|left|, (i: int) requires 0 <= i < |left| => Vecmat(left[i], right))
  }

  function Zeros(rows: nat, columns: nat): (m: Matrix)
    ensures IsMatrix(m, rows, columns)
    ensures forall i, j :: 0 <= i < rows && 0 <= j < columns ==> m[i][j] == 0.0
  {
    seq(rows, _ => seq(columns, _ => 0.0))
  }

  /** Assigning one entry in place. */
  function Put(m: Matrix, i: int, j: int, value: real): Matrix
    requires 0 <= i < |m| && 0 <= j < |m[i]|
  {
    m[i := m[i][j := value]]
  }

  lemma PutHolds(m: Matrix, rows: int, columns: int, i: int, j: int, value: real)
    requires IsMatrix(m, rows, columns) && 0 <= i < rows && 0 <= j < columns
    ensures IsMatrix(Put(m, i, j, value), rows, columns)
    ensures forall r, c :: 0 <= r < rows && 0 <= c < columns ==>
      Put(m, i, j, value)[r][c] == if r == i && c == j then value else m[r][c]
  {
  }

  lemma TransposeHolds(m: Matrix, rows: int, columns: int)
    requires IsMatrix(m, rows, columns) && rows > 0
    ensures Holds(Transpose(m), columns, rows, Flip(EntriesOf(m)))
  {
  }

  lemma DotIsSum(left: Vector, right: Vector, n: int, f: int -> real)
    requires |left| == |right| == n
    requires forall l :: 0 <= l < n ==> f(l) == Times(left[l], right[l])
    ensures Dot(left, right) == Sum(n, f)
  {
    SumExt(n, (i: int) => Times(Get(left, i), Get(right, i)), f);
  }

  lemma VecmatEntry(vector: Vector, matrix: Matrix, k: int, n: int, a: Entries, b: Entries, i: int)
    requires |vector| == k && Holds(matrix, k, n, b) && k > 0
    requires forall l :: 0 <= l < k ==> vector[l] == a(i, l)
    ensures |Vecmat(vector, matrix)| == n
    ensures forall j :: 0 <= j < n ==> Vecmat(vector, matrix)[j] == Prod(k, a, b, i, j)
  {
    TransposeHolds(matrix, k, n);
    var columns := Transpose(matrix);
    forall j | 0 <= j < n ensures Dot(vector, columns[j]) == Prod(k, a, b, i, j) {
      forall l | 0 <= l < k ensures Times(a(i, l), b(l, j)) == Times(vector[l], columns[j][l]) {
        assert columns[j][l] == Flip(EntriesOf(matrix))(j, l) == b(l, j);
      }
      DotIsSum(vector, columns[j], k, (l: int) => Times(a(i, l), b(l, j)));
    }
  }

  /** List multiplication computes the product of the entries. */
  lemma {:induction false} MatmulHolds(left: Matrix, right: Matrix, m: int, k: int, n: int, a: Entries, b: Entries)
    requires Holds(left, m, k, a) && Holds(right, k, n, b) && m > 0 && k > 0
    ensures Holds(Matmul(left, right), m, n, Mul(k, a, b))
  {
    var ab := Mul(k, a, b);
    forall i | 0 <= i < m
      ensures |Matmul(left, right)[i]| == n
      ensures forall j :: 0 <= j < n ==> Matmul(left, right)[i][j] == ab(i, j)
    {
      VecmatEntry(left[i], right, k, n, a, b, i);
      forall j | 0 <= j < n ensures Matmul(left, right)[i][j] == ab(i, j) {
        assert Matmul(left, right)[i] == Vecmat(left[i], right);
      }
    }
  }
}
