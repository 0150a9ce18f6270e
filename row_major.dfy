/**
 * Row-major addressing of a three-dimensional box of extent nx * ny * nz: the
 * linear index of (i, j, k) is i + j*nx + k*nx*ny, the first coordinate varying
 * fastest. The velocity-cell index inside a block and the block and cell
 * numbering of the extraction tool all use this layout. The division and
 * remainder facts these rest on are proved here too.
 */
module RowMajor {

  /** Linear index of (i, j, k). */
  function Compose(i: nat, j: nat, k: nat, nx: nat, ny: nat): nat
  {
    i + j * nx + k * (nx * ny)
  }

  /** Coordinates of the linear index n: (n % nx, (n / nx) % ny, n / (nx * ny)). */
  function Decompose(n: nat, nx: nat, ny: nat): (nat, nat, nat)
    requires nx > 0 && ny > 0
  {
    (n % nx, (n / nx) % ny, n / (nx * ny))
  }

  /** Multiplying by a natural number is monotonic. */
  lemma {:induction false} MulMono(a: nat, b: nat, c: nat)
    requires a <= b
    ensures a * c <= b * c
  {
    var e: nat := b - a;
    assert b * c == a * c + e * c;
  }

  /** Euclidean division is determined by any quotient/remainder pair. */
  lemma {:induction false} DivModUnique(n: nat, d: nat, q: nat, r: nat)
    requires d > 0 && r < d && n == q * d + r
    ensures n / d == q && n % d == r
  {
    var q' := n / d;
    var r' := n % d;
    assert n == q' * d + r';
    if q' < q {
      MulMono(q' + 1, q, d);
      assert false;
    } else if q' > q {
      MulMono(q + 1, q', d);
      assert false;
    }
  }

  /** Distributing a product over a quotient/remainder sum. */
  lemma MulAdd(a: nat, b: nat, c: nat, d: nat)
    ensures (a * b + c) * d == a * (d * b) + c * d
  {
  }

  /** Dividing by nx and then by ny is dividing by nx * ny. */
  lemma {:induction false} DivDiv(n: nat, nx: nat, ny: nat)
    requires nx > 0 && ny > 0
    ensures n / nx / ny == n / (nx * ny)
    ensures (n / nx) % ny * nx + n % nx < nx * ny
    ensures n == n / (nx * ny) * (nx * ny) + (n / nx) % ny * nx + n % nx
  {
    var q: nat, r: nat := n / nx, n % nx;
    var q2: nat, r2: nat := q / ny, q % ny;
    assert r2 * nx + r < nx * ny by {
      MulMono(r2 + 1, ny, nx);
      assert (r2 + 1) * nx == r2 * nx + nx;
      assert ny * nx == nx * ny;
    }
    assert n == q2 * (nx * ny) + (r2 * nx + r) by {
      assert n == q * nx + r;
      assert q == q2 * ny + r2;
      MulAdd(q2, ny, r2, nx);
    }
    DivModUnique(n, nx * ny, q2, r2 * nx + r);
  }

  /** Any index is the composition of its coordinates; the first two are in range. */
  lemma {:induction false} DecomposeComposes(n: nat, nx: nat, ny: nat)
    requires nx > 0 && ny > 0
    ensures var (i, j, k) := Decompose(n, nx, ny);
      i < nx && j < ny && Compose(i, j, k, nx, ny) == n
  {
    DivDiv(n, nx, ny);
  }

  /** Decomposing an in-range index gives in-range coordinates that compose back to it. */
  lemma {:induction false} ComposeOfDecompose(n: nat, nx: nat, ny: nat, nz: nat)
    requires nx > 0 && ny > 0 && n < nx * ny * nz
    ensures var (i, j, k) := Decompose(n, nx, ny);
      i < nx && j < ny && k < nz && Compose(i, j, k, nx, ny) == n
  {
    DivDiv(n, nx, ny);
    var k := n / (nx * ny);
    if k >= nz {
      MulMono(nz, k, nx * ny);
      assert false;
    }
  }

  /** Composing in-range coordinates and decomposing again gives the coordinates back. */
  lemma {:induction false} DecomposeOfCompose(i: nat, j: nat, k: nat, nx: nat, ny: nat)
    requires i < nx && j < ny
    ensures Decompose(Compose(i, j, k, nx, ny), nx, ny) == (i, j, k)
  {
    var n := Compose(i, j, k, nx, ny);
    assert n == (j + k * ny) * nx + i;
    DivModUnique(n, nx, j + k * ny, i);
    DivModUnique(n / nx, ny, k, j);
    DivDiv(n, nx, ny);
  }

  /** Two in-range coordinate triples with the same linear index are equal. */
  lemma {:induction false} ComposeInjective(i: nat, j: nat, k: nat, i': nat, j': nat, k': nat, nx: nat, ny: nat)
    requires i < nx && j < ny && i' < nx && j' < ny
    requires Compose(i, j, k, nx, ny) == Compose(i', j', k', nx, ny)
    ensures i == i' && j == j' && k == k'
  {
    DecomposeOfCompose(i, j, k, nx, ny);
    DecomposeOfCompose(i', j', k', nx, ny);
  }

  /** An in-range triple lies below nx * ny * nz. */
  lemma {:induction false} ComposeBound(i: nat, j: nat, k: nat, nx: nat, ny: nat, nz: nat)
    requires i < nx && j < ny && k < nz
    ensures Compose(i, j, k, nx, ny) < nx * ny * nz
  {
    MulMono(j + 1, ny, nx);
    assert i + j * nx < (j + 1) * nx;
    MulMono(k + 1, nz, nx * ny);
    assert (k + 1) * (nx * ny) == k * (nx * ny) + nx * ny;
    assert nx * ny * nz == nz * (nx * ny);
  }

  /** Reducing after every addition gives the reduced sum (unsigned wrap-around accumulates correctly). */
  lemma ModAdd(a: nat, b: nat, m: nat)
    requires m > 0
    ensures (a % m + b) % m == (a + b) % m
  {
    var s := a % m + b;
    DivModUnique(s, m, s / m, s % m);
    DivModUnique(a + b, m, a / m + s / m, s % m);
  }
}
