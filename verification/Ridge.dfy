/** `_solve_ridge`: the two branches that solve the same regression, by a system as large as the number of
    rows or as large as the number of columns, for one target column. Vectors and matrices are functions of
    their indices, with the dimensions given beside them. */
module Ridge {

  type Vector = int -> real

  type Matrix = (int, int) -> real

  /** `np.linalg.solve`: a system, its dimension and its right-hand side. */
  type Solve = (Matrix, nat, Vector) -> Vector

  function Sigma(n: nat, v: Vector): real {
    if n == 0 then 0.0 else Sigma(n - 1, v) + v(n - 1)
  }

  function Row(a: Matrix, i: int): Vector {
    j => a(i, j)
  }

  function Transposed(a: Matrix): Matrix {
    (i, j) => a(j, i)
  }

  function Times(u: Vector, v: Vector): Vector {
    i => u(i) * v(i)
  }

  function Dot(n: nat, u: Vector, v: Vector): real {
    Sigma(n, Times(u, v))
  }

  /** `a @ v` for a matrix of `m` columns. */
  function Apply(a: Matrix, m: nat, v: Vector): Vector {
    i => Dot(m, Row(a, i), v)
  }

  /** `a.T @ u` for a matrix of `n` rows. */
  function Adjoint(a: Matrix, n: nat, u: Vector): Vector {
    Apply(Transposed(a), n, u)
  }

  /** `a @ a.T + alpha * np.eye(...)` for a matrix of `m` columns. */
  function System(a: Matrix, m: nat, alpha: real): Matrix {
    (i, k) => Dot(m, Row(a, i), Row(a, k)) + if i == k then alpha else 0.0
  }

  ghost predicate Solves(system: Matrix, n: nat, v: Vector, y: Vector) {
    forall i :: 0 <= i < n ==> Apply(system, n, v)(i) == y(i)
  }

  ghost predicate Agree(n: nat, u: Vector, v: Vector) {
    forall i :: 0 <= i < n ==> u(i) == v(i)
  }

  /** The row branch. */
  function ByRows(x: Matrix, rows: nat, columns: nat, alpha: real, y: Vector, solve: Solve): Vector {
    Adjoint(x, rows, solve(System(x, columns, alpha), rows, y))
  }

  /** The column branch. */
  function ByColumns(x: Matrix, rows: nat, columns: nat, alpha: real, y: Vector, solve: Solve): Vector {
    solve(System(Transposed(x), rows, alpha), columns, Adjoint(x, rows, y))
  }

  function SolveRidge(x: Matrix, rows: nat, columns: nat, alpha: real, y: Vector, solve: Solve): Vector {
    if rows <= columns then ByRows(x, rows, columns, alpha, y, solve)
    else ByColumns(x, rows, columns, alpha, y, solve)
  }

  /** The normal equations of the regression. */
  ghost predicate Normal(x: Matrix, rows: nat, columns: nat, alpha: real, y: Vector, w: Vector) {
    Solves(System(Transposed(x), rows, alpha), columns, w, Adjoint(x, rows, y))
  }

  function Residual(x: Matrix, columns: nat, y: Vector, w: Vector): Vector {
    i => y(i) - Apply(x, columns, w)(i)
  }

  /** What ridge regression minimises. */
  function Loss(x: Matrix, rows: nat, columns: nat, alpha: real, y: Vector, w: Vector): real {
    var r := Residual(x, columns, y, w);
    Dot(rows, r, r) + alpha * Dot(columns, w, w)
  }

  // ---- sums ---------------------------------------------------------------------------------------------

  lemma {:induction false} SigmaLinear(n: nat, a: real, u: Vector, b: real, v: Vector, w: Vector)
    requires forall i :: 0 <= i < n ==> w(i) == a * u(i) + b * v(i)
    ensures Sigma(n, w) == a * Sigma(n, u) + b * Sigma(n, v)
  {
    if n > 0 {
      SigmaLinear(n - 1, a, u, b, v, w);
      Distribute(a, Sigma(n - 1, u), u(n - 1));
      Distribute(b, Sigma(n - 1, v), v(n - 1));
    }
  }

  lemma Distribute(a: real, x: real, y: real)
    ensures a * (x + y) == a * x + a * y
  {
  }

  lemma {:induction false} SigmaCongruent(n: nat, u: Vector, v: Vector)
    requires Agree(n, u, v)
    ensures Sigma(n, u) == Sigma(n, v)
  {
    if n > 0 {
      SigmaCongruent(n - 1, u, v);
    }
  }

  function RowSums(a: Matrix, m: nat): Vector {
    i => Sigma(m, Row(a, i))
  }

  /** The order of summation does not matter. */
  lemma {:induction false} SigmaExchange(a: Matrix, n: nat, m: nat)
    ensures Sigma(n, RowSums(a, m)) == Sigma(m, RowSums(Transposed(a), n))
  {
    var down := Transposed(a);
    if n == 0 {
      SigmaLinear(m, 0.0, RowSums(down, 0), 0.0, RowSums(down, 0), RowSums(down, 0));
    } else {
      SigmaExchange(a, n - 1, m);
      forall j | 0 <= j < m
        ensures RowSums(down, n)(j) == 1.0 * RowSums(down, n - 1)(j) + 1.0 * Row(a, n - 1)(j)
      {
        assert Row(down, j)(n - 1) == a(n - 1, j);
      }
      SigmaLinear(m, 1.0, RowSums(down, n - 1), 1.0, Row(a, n - 1), RowSums(down, n));
    }
  }

  /** The entries of `u.T @ a @ v` before they are summed. */
  function Weighted(a: Matrix, u: Vector, v: Vector): Matrix {
    (i, j) => u(i) * (a(i, j) * v(j))
  }

  lemma WeightedRowSums(a: Matrix, m: nat, u: Vector, v: Vector, i: int)
    ensures RowSums(Weighted(a, u, v), m)(i) == u(i) * Dot(m, Row(a, i), v)
  {
    SigmaLinear(m, u(i), Times(Row(a, i), v), 0.0, v, Row(Weighted(a, u, v), i));
  }

  lemma WeightedColumnSums(a: Matrix, n: nat, u: Vector, v: Vector, j: int)
    ensures RowSums(Transposed(Weighted(a, u, v)), n)(j) == Dot(n, Row(Transposed(a), j), u) * v(j)
  {
    var terms := Row(Transposed(Weighted(a, u, v)), j);
    forall i | 0 <= i < n
      ensures terms(i) == v(j) * Times(Row(Transposed(a), j), u)(i) + 0.0 * u(i)
    {
      Rearrange(u(i), a(i, j), v(j));
    }
    SigmaLinear(n, v(j), Times(Row(Transposed(a), j), u), 0.0, u, terms);
  }

  lemma Rearrange(x: real, y: real, z: real)
    ensures x * (y * z) == z * (y * x)
  {
  }

  /** A matrix and its transpose are adjoint. */
  lemma Adjunction(a: Matrix, n: nat, m: nat, u: Vector, v: Vector)
    ensures Dot(n, u, Apply(a, m, v)) == Dot(m, Adjoint(a, n, u), v)
  {
    var w := Weighted(a, u, v);
    forall i | 0 <= i < n
      ensures RowSums(w, m)(i) == Times(u, Apply(a, m, v))(i)
    {
      WeightedRowSums(a, m, u, v, i);
    }
    forall j | 0 <= j < m
      ensures RowSums(Transposed(w), n)(j) == Times(Adjoint(a, n, u), v)(j)
    {
      WeightedColumnSums(a, n, u, v, j);
    }
    SigmaCongruent(n, RowSums(w, m), Times(u, Apply(a, m, v)));
    SigmaExchange(w, n, m);
    SigmaCongruent(m, RowSums(Transposed(w), n), Times(Adjoint(a, n, u), v));
  }

  lemma DotCommutes(n: nat, u: Vector, v: Vector)
    ensures Dot(n, u, v) == Dot(n, v, u)
  {
    SigmaCongruent(n, Times(u, v), Times(v, u));
  }

  lemma DotCongruent(n: nat, u: Vector, v: Vector, u': Vector, v': Vector)
    requires Agree(n, u, u') && Agree(n, v, v')
    ensures Dot(n, u, v) == Dot(n, u', v')
  {
    SigmaCongruent(n, Times(u, v), Times(u', v'));
  }

  /** `Dot` is linear in its second argument. */
  lemma DotLinear(n: nat, u: Vector, a: real, v: Vector, b: real, w: Vector, z: Vector)
    requires forall i :: 0 <= i < n ==> z(i) == a * v(i) + b * w(i)
    ensures Dot(n, u, z) == a * Dot(n, u, v) + b * Dot(n, u, w)
  {
    forall i | 0 <= i < n
      ensures Times(u, z)(i) == a * Times(u, v)(i) + b * Times(u, w)(i)
    {
      Bilinear(u(i), a, v(i), b, w(i));
    }
    SigmaLinear(n, a, Times(u, v), b, Times(u, w), Times(u, z));
  }

  lemma Bilinear(x: real, a: real, y: real, b: real, z: real)
    ensures x * (a * y + b * z) == a * (x * y) + b * (x * z)
  {
  }

  lemma ApplyLinear(x: Matrix, m: nat, a: real, v: Vector, b: real, w: Vector, z: Vector, i: int)
    requires forall j :: 0 <= j < m ==> z(j) == a * v(j) + b * w(j)
    ensures Apply(x, m, z)(i) == a * Apply(x, m, v)(i) + b * Apply(x, m, w)(i)
  {
    DotLinear(m, Row(x, i), a, v, b, w, z);
  }

  function Spike(i: int, c: real): Vector {
    k => if k == i then c else 0.0
  }

  lemma {:induction false} SigmaSpike(n: nat, i: int, c: real)
    requires 0 <= i
    ensures Sigma(n, Spike(i, c)) == if i < n then c else 0.0
  {
    if n > 0 {
      SigmaSpike(n - 1, i, c);
    }
  }

  // ---- the systems --------------------------------------------------------------------------------------

  /** The system's matrix product, written out by applying `a` and its transpose in turn. */
  lemma SystemApplied(a: Matrix, n: nat, m: nat, alpha: real, v: Vector, i: int)
    requires 0 <= i < n
    ensures Apply(System(a, m, alpha), n, v)(i) == Apply(a, m, Adjoint(a, n, v))(i) + alpha * v(i)
  {
    var row := Row(a, i);
    var products, spike := Times(v, Apply(a, m, row)), Spike(i, alpha * v(i));
    var terms := Times(Row(System(a, m, alpha), i), v);
    forall k | 0 <= k < n
      ensures terms(k) == 1.0 * products(k) + 1.0 * spike(k)
    {
      DotCommutes(m, row, Row(a, k));
      Bilinear(v(k), 1.0, Dot(m, row, Row(a, k)), 1.0, if i == k then alpha else 0.0);
    }
    SigmaLinear(n, 1.0, products, 1.0, spike, terms);
    SigmaSpike(n, i, alpha * v(i));
    Adjunction(a, n, m, v, row);
    DotCommutes(m, Adjoint(a, n, v), row);
  }

  lemma TwiceTransposed(x: Matrix, m: nat, w: Vector, i: int)
    ensures Adjoint(Transposed(x), m, w)(i) == Apply(x, m, w)(i)
  {
    SigmaCongruent(m, Times(Row(Transposed(Transposed(x)), i), w), Times(Row(x, i), w));
  }

  /** The normal equations say that the penalised coefficients are the adjoint of the residual. */
  lemma NormalExactly(x: Matrix, rows: nat, columns: nat, alpha: real, y: Vector, w: Vector, j: int)
    requires 0 <= j < columns
    ensures Apply(System(Transposed(x), rows, alpha), columns, w)(j) == Adjoint(x, rows, y)(j)
       <==> Adjoint(x, rows, Residual(x, columns, y, w))(j) == alpha * w(j)
  {
    var down := Transposed(x);
    var fitted, r := Apply(x, columns, w), Residual(x, columns, y, w);
    SystemApplied(down, columns, rows, alpha, w, j);
    forall i | 0 <= i < rows
      ensures Adjoint(down, columns, w)(i) == fitted(i)
    {
      TwiceTransposed(x, columns, w, i);
    }
    DotCongruent(rows, Row(down, j), Adjoint(down, columns, w), Row(down, j), fitted);
    ApplyLinear(down, rows, 1.0, y, -1.0, fitted, r, j);
  }

  /** The row branch satisfies the normal equations too. */
  lemma RowsSolveNormal(x: Matrix, rows: nat, columns: nat, alpha: real, y: Vector, a: Vector)
    requires Solves(System(x, columns, alpha), rows, a, y)
    ensures Normal(x, rows, columns, alpha, y, Adjoint(x, rows, a))
  {
    var w := Adjoint(x, rows, a);
    var r := Residual(x, columns, y, w);
    forall i | 0 <= i < rows
      ensures r(i) == alpha * a(i) + 0.0 * a(i)
    {
      SystemApplied(x, rows, columns, alpha, a, i);
    }
    forall j | 0 <= j < columns
      ensures Apply(System(Transposed(x), rows, alpha), columns, w)(j) == Adjoint(x, rows, y)(j)
    {
      ApplyLinear(Transposed(x), rows, alpha, a, 0.0, a, r, j);
      NormalExactly(x, rows, columns, alpha, y, w, j);
    }
  }

  // ---- optimality ---------------------------------------------------------------------------------------

  lemma {:induction false} SquareNonNegative(n: nat, v: Vector)
    ensures Dot(n, v, v) >= 0.0
    ensures Dot(n, v, v) == 0.0 ==> forall i :: 0 <= i < n ==> v(i) == 0.0
  {
    if n > 0 {
      SquareNonNegative(n - 1, v);
      var last := v(n - 1);
      Square(last);
      assert Dot(n, v, v) == Dot(n - 1, v, v) + last * last;
      if Dot(n, v, v) == 0.0 {
        SquareVanishes(last);
        forall i | 0 <= i < n
          ensures v(i) == 0.0
        {
          assert i == n - 1 || i < n - 1;
        }
      }
    }
  }

  lemma Square(x: real)
    ensures x * x >= 0.0
  {
  }

  lemma SquareVanishes(x: real)
    requires x * x <= 0.0
    ensures x == 0.0
  {
    if x < 0.0 {
      NotBothNegative(x, x);
    } else if x > 0.0 {
      NotBothPositive(x, x);
    }
  }

  lemma NotBothNegative(x: real, y: real)
    requires x * y <= 0.0
    ensures x >= 0.0 || y >= 0.0
  {
  }

  lemma NotBothPositive(x: real, y: real)
    requires x * y <= 0.0
    ensures x <= 0.0 || y <= 0.0
  {
  }

  lemma SquareOfSum(n: nat, u: Vector, c: real, v: Vector, z: Vector)
    requires forall i :: 0 <= i < n ==> z(i) == 1.0 * u(i) + c * v(i)
    ensures Dot(n, z, z) == Dot(n, u, u) + 2.0 * c * Dot(n, u, v) + c * c * Dot(n, v, v)
  {
    DotLinear(n, z, 1.0, u, c, v, z);
    DotCommutes(n, z, u);
    DotCommutes(n, z, v);
    DotLinear(n, u, 1.0, u, c, v, z);
    DotLinear(n, v, 1.0, u, c, v, z);
    DotCommutes(n, v, u);
    Distribute(c, Dot(n, u, v), c * Dot(n, v, v));
  }

  function Difference(v: Vector, w: Vector): Vector {
    j => v(j) - w(j)
  }

  lemma ResidualSquares(x: Matrix, rows: nat, columns: nat, y: Vector, w: Vector, v: Vector)
    ensures var r, change := Residual(x, columns, y, w), Apply(x, columns, Difference(v, w));
            Dot(rows, Residual(x, columns, y, v), Residual(x, columns, y, v))
            == Dot(rows, r, r) - 2.0 * Dot(rows, r, change) + Dot(rows, change, change)
  {
    var d := Difference(v, w);
    var r, change := Residual(x, columns, y, w), Apply(x, columns, d);
    forall i | 0 <= i < rows
      ensures Residual(x, columns, y, v)(i) == 1.0 * r(i) + -1.0 * change(i)
    {
      ApplyLinear(x, columns, 1.0, w, 1.0, d, v, i);
    }
    SquareOfSum(rows, r, -1.0, change, Residual(x, columns, y, v));
  }

  /** What the residual loses to first order the penalty gains. */
  lemma FirstOrder(x: Matrix, rows: nat, columns: nat, alpha: real, y: Vector, w: Vector, d: Vector)
    requires Normal(x, rows, columns, alpha, y, w)
    ensures Dot(rows, Residual(x, columns, y, w), Apply(x, columns, d)) == alpha * Dot(columns, w, d)
  {
    var r := Residual(x, columns, y, w);
    Adjunction(x, rows, columns, r, d);
    forall j | 0 <= j < columns
      ensures Adjoint(x, rows, r)(j) == alpha * w(j) + 0.0 * w(j)
    {
      NormalExactly(x, rows, columns, alpha, y, w, j);
    }
    DotCommutes(columns, Adjoint(x, rows, r), d);
    DotLinear(columns, d, alpha, w, 0.0, w, Adjoint(x, rows, r));
    DotCommutes(columns, d, w);
  }

  /** Away from a solution of the normal equations the loss grows by two squares. */
  lemma LossAround(x: Matrix, rows: nat, columns: nat, alpha: real, y: Vector, w: Vector, v: Vector)
    requires Normal(x, rows, columns, alpha, y, w)
    ensures var d := Difference(v, w);
            Loss(x, rows, columns, alpha, y, v) == Loss(x, rows, columns, alpha, y, w)
                 + Dot(rows, Apply(x, columns, d), Apply(x, columns, d)) + alpha * Dot(columns, d, d)
  {
    hide Dot, Normal, Apply, Residual;
    var d := Difference(v, w);
    ResidualSquares(x, rows, columns, y, w, v);
    FirstOrder(x, rows, columns, alpha, y, w, d);
    SquareOfSum(columns, w, 1.0, d, v);
    LossArithmetic(alpha, Dot(columns, w, w), Dot(columns, w, d), Dot(columns, d, d));
  }

  lemma LossArithmetic(alpha: real, ww: real, wd: real, dd: real)
    ensures alpha * (ww + 2.0 * 1.0 * wd + 1.0 * 1.0 * dd) == alpha * ww + 2.0 * (alpha * wd) + alpha * dd
  {
  }

  /** A solution of the normal equations is the one minimiser of the loss. */
  lemma NormalMinimises(x: Matrix, rows: nat, columns: nat, alpha: real, y: Vector, w: Vector, v: Vector)
    requires alpha > 0.0 && Normal(x, rows, columns, alpha, y, w)
    ensures Loss(x, rows, columns, alpha, y, w) <= Loss(x, rows, columns, alpha, y, v)
    ensures Loss(x, rows, columns, alpha, y, w) == Loss(x, rows, columns, alpha, y, v) ==> Agree(columns, w, v)
  {
    var d := Difference(v, w);
    LossAround(x, rows, columns, alpha, y, w, v);
    SquareNonNegative(rows, Apply(x, columns, d));
    SquareNonNegative(columns, d);
    Scale(alpha, Dot(columns, d, d));
    if Loss(x, rows, columns, alpha, y, w) == Loss(x, rows, columns, alpha, y, v) {
      assert forall j :: 0 <= j < columns ==> d(j) == v(j) - w(j);
    }
  }

  lemma Scale(alpha: real, x: real)
    requires alpha > 0.0 && x >= 0.0
    ensures alpha * x >= 0.0
    ensures alpha * x == 0.0 ==> x == 0.0
  {
  }

  /** Where `solve` solves the two systems, the two branches return the same coefficients. */
  lemma BranchesAgree(x: Matrix, rows: nat, columns: nat, alpha: real, y: Vector, solve: Solve)
    requires alpha > 0.0
    requires Solves(System(x, columns, alpha), rows, solve(System(x, columns, alpha), rows, y), y)
    requires Normal(x, rows, columns, alpha, y, ByColumns(x, rows, columns, alpha, y, solve))
    ensures Agree(columns, ByRows(x, rows, columns, alpha, y, solve), ByColumns(x, rows, columns, alpha, y, solve))
  {
    var byRows, byColumns := ByRows(x, rows, columns, alpha, y, solve), ByColumns(x, rows, columns, alpha, y, solve);
    RowsSolveNormal(x, rows, columns, alpha, y, solve(System(x, columns, alpha), rows, y));
    NormalMinimises(x, rows, columns, alpha, y, byRows, byColumns);
    NormalMinimises(x, rows, columns, alpha, y, byColumns, byRows);
  }

  /** Whichever branch is taken, its coefficients minimise the loss, and no others do. */
  lemma SolveRidgeMinimises(x: Matrix, rows: nat, columns: nat, alpha: real, y: Vector,
                            solve: Solve, v: Vector)
    requires alpha > 0.0
    requires if rows <= columns
             then Solves(System(x, columns, alpha), rows, solve(System(x, columns, alpha), rows, y), y)
             else Normal(x, rows, columns, alpha, y, ByColumns(x, rows, columns, alpha, y, solve))
    ensures var w := SolveRidge(x, rows, columns, alpha, y, solve);
            && Loss(x, rows, columns, alpha, y, w) <= Loss(x, rows, columns, alpha, y, v)
            && (Loss(x, rows, columns, alpha, y, w) == Loss(x, rows, columns, alpha, y, v) ==> Agree(columns, w, v))
  {
    var w := SolveRidge(x, rows, columns, alpha, y, solve);
    if rows <= columns {
      RowsSolveNormal(x, rows, columns, alpha, y, solve(System(x, columns, alpha), rows, y));
    }
    NormalMinimises(x, rows, columns, alpha, y, w, v);
  }
}
