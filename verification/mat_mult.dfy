/** The tiled matrix multiply of the MatMult workload (mat_mult3.c):
    C += A * B over n x n matrices, with the loops tiled ii, kk, jj by
    block_size and i, j, k running inside each tile. Each loop of the nest is
    a method here, and each states which cells it has added which part of
    the dot product to. */
module MatMult {

  type Matrix = seq<seq<int>>

  /** n rows of n entries each. */
  predicate Square(m: Matrix, n: nat) {
    |m| == n && forall r :: 0 <= r < n ==> |m[r]| == n
  }

  function Min(a: int, b: int): int {
    if a <= b then a else b
  }

  /** A[i][lo]*B[lo][j] + ... + A[i][hi-1]*B[hi-1][j], summed in k order. */
  function Dot(a: Matrix, b: Matrix, n: nat, i: nat, j: nat, lo: nat, hi: nat): int
    requires Square(a, n) && Square(b, n) && i < n && j < n && hi <= n
    decreases hi
  {
    if hi <= lo then 0 else Dot(a, b, n, i, j, lo, hi - 1) + a[i][hi - 1] * b[hi - 1][j]
  }

  /** A dot product over [lo, hi) is the one over [lo, mid) plus the one
      over [mid, hi). */
  lemma {:induction false} DotSplit(a: Matrix, b: Matrix, n: nat, i: nat, j: nat, lo: nat, mid: nat, hi: nat)
    requires Square(a, n) && Square(b, n) && i < n && j < n && lo <= mid <= hi <= n
    ensures Dot(a, b, n, i, j, lo, hi) == Dot(a, b, n, i, j, lo, mid) + Dot(a, b, n, i, j, mid, hi)
    decreases hi
  {
    if mid < hi {
      DotSplit(a, b, n, i, j, lo, mid, hi - 1);
    }
  }

  /** `c1` is `c0` with Dot over [klo, khi) added to every cell in rows
      [rlo, rhi) and columns [clo, chi), and every other cell as it was. */
  predicate Added(a: Matrix, b: Matrix, n: nat, c0: Matrix, c1: Matrix,
                  rlo: nat, rhi: nat, clo: nat, chi: nat, klo: nat, khi: nat)
    requires Square(a, n) && Square(b, n) && Square(c0, n) && khi <= n
  {
    && Square(c1, n)
    && forall r, c :: 0 <= r < n && 0 <= c < n ==>
         c1[r][c] == c0[r][c] + (if rlo <= r < rhi && clo <= c < chi then Dot(a, b, n, r, c, klo, khi) else 0)
  }

  /** for (k = kk; k < kk + block_size && k < n; k++) C[i][j] += A[i][k] * B[k][j]; */
  method KLoop(a: Matrix, b: Matrix, c: Matrix, n: nat, i: nat, j: nat, klo: nat, khi: nat) returns (c': Matrix)
    requires Square(a, n) && Square(b, n) && Square(c, n) && i < n && j < n && klo <= khi <= n
    ensures Added(a, b, n, c, c', i, i + 1, j, j + 1, klo, khi)
  {
    c' := c;
    var k := klo;
    while k < khi
      invariant klo <= k <= khi
      invariant Added(a, b, n, c, c', i, i + 1, j, j + 1, klo, k)
    {
      c' := c'[i := c'[i][j := c'[i][j] + a[i][k] * b[k][j]]];
      k := k + 1;
    }
  }

  /** for (j = jj; j < jj + block_size && j < n; j++) ... */
  method JLoop(a: Matrix, b: Matrix, c: Matrix, n: nat, i: nat, clo: nat, chi: nat, klo: nat, khi: nat)
    returns (c': Matrix)
    requires Square(a, n) && Square(b, n) && Square(c, n) && i < n && clo <= chi <= n && klo <= khi <= n
    ensures Added(a, b, n, c, c', i, i + 1, clo, chi, klo, khi)
  {
    c' := c;
    var j := clo;
    while j < chi
      invariant clo <= j <= chi
      invariant Added(a, b, n, c, c', i, i + 1, clo, j, klo, khi)
    {
      c' := KLoop(a, b, c', n, i, j, klo, khi);
      j := j + 1;
    }
  }

  /** for (i = ii; i < ii + block_size && i < n; i++) ... */
  method ILoop(a: Matrix, b: Matrix, c: Matrix, n: nat, rlo: nat, rhi: nat, clo: nat, chi: nat, klo: nat, khi: nat)
    returns (c': Matrix)
    requires Square(a, n) && Square(b, n) && Square(c, n) && rlo <= rhi <= n && clo <= chi <= n && klo <= khi <= n
    ensures Added(a, b, n, c, c', rlo, rhi, clo, chi, klo, khi)
  {
    c' := c;
    var i := rlo;
    while i < rhi
      invariant rlo <= i <= rhi
      invariant Added(a, b, n, c, c', rlo, i, clo, chi, klo, khi)
    {
      c' := JLoop(a, b, c', n, i, clo, chi, klo, khi);
      i := i + 1;
    }
  }

  /** for (jj = 0; jj < n; jj += block_size) ... : every column of the row
      tile gets the k tile's share. */
  method JJLoop(a: Matrix, b: Matrix, c: Matrix, n: nat, blockSize: nat, rlo: nat, rhi: nat, klo: nat, khi: nat)
    returns (c': Matrix)
    requires Square(a, n) && Square(b, n) && Square(c, n) && blockSize > 0 && rlo <= rhi <= n && klo <= khi <= n
    ensures Added(a, b, n, c, c', rlo, rhi, 0, n, klo, khi)
  {
    c' := c;
    var jj := 0;
    while jj < n
      invariant 0 <= jj
      invariant Added(a, b, n, c, c', rlo, rhi, 0, Min(jj, n), klo, khi)
      decreases n - jj
    {
      c' := ILoop(a, b, c', n, rlo, rhi, jj, Min(jj + blockSize, n), klo, khi);
      jj := jj + blockSize;
    }
  }

  /** for (kk = 0; kk < n; kk += block_size) ... : the row tile gets the
      whole dot product, one k tile after the other. */
  method KKLoop(a: Matrix, b: Matrix, c: Matrix, n: nat, blockSize: nat, rlo: nat, rhi: nat)
    returns (c': Matrix)
    requires Square(a, n) && Square(b, n) && Square(c, n) && blockSize > 0 && rlo <= rhi <= n
    ensures Added(a, b, n, c, c', rlo, rhi, 0, n, 0, n)
  {
    c' := c;
    var kk := 0;
    while kk < n
      invariant 0 <= kk
      invariant Added(a, b, n, c, c', rlo, rhi, 0, n, 0, Min(kk, n))
      decreases n - kk
    {
      var khi := Min(kk + blockSize, n);
      var next := JJLoop(a, b, c', n, blockSize, rlo, rhi, kk, khi);
      forall r, col | 0 <= r < n && 0 <= col < n && rlo <= r < rhi
        ensures Dot(a, b, n, r, col, 0, kk) + Dot(a, b, n, r, col, kk, khi) == Dot(a, b, n, r, col, 0, khi)
      {
        DotSplit(a, b, n, r, col, 0, kk, khi);
      }
      c' := next;
      kk := kk + blockSize;
    }
  }

  /** mat_mult_tiled_iikkjj(A, B, C, n, block_size): every C[i][j] ends as
      its initial value plus the sum over k < n of A[i][k] * B[k][j]. */
  method MatMultTiled(a: Matrix, b: Matrix, c: Matrix, n: nat, blockSize: nat) returns (c': Matrix)
    requires Square(a, n) && Square(b, n) && Square(c, n) && blockSize > 0
    ensures Square(c', n)
    ensures forall i, j :: 0 <= i < n && 0 <= j < n ==> c'[i][j] == c[i][j] + Dot(a, b, n, i, j, 0, n)
  {
    c' := c;
    var ii := 0;
    while ii < n
      invariant 0 <= ii
      invariant Added(a, b, n, c, c', 0, Min(ii, n), 0, n, 0, n)
      decreases n - ii
    {
      c' := KKLoop(a, b, c', n, blockSize, ii, Min(ii + blockSize, n));
      ii := ii + blockSize;
    }
  }

  /** The plain product, one dot product per cell. */
  function Product(a: Matrix, b: Matrix, n: nat): (p: Matrix)
    requires Square(a, n) && Square(b, n)
    ensures Square(p, n)
  {
    seq(n, i requires 0 <= i < n => seq(n, j requires 0 <= j < n => Dot(a, b, n, i, j, 0, n)))
  }

  function Zero(n: nat): (z: Matrix)
    ensures Square(z, n)
  {
    seq(n, i => seq(n, j => 0))
  }

  /** With C zeroed first, as the driver does, the tiled multiply leaves
      the plain product in C. */
  method MultiplyFromZero(a: Matrix, b: Matrix, n: nat, blockSize: nat) returns (c: Matrix)
    requires Square(a, n) && Square(b, n) && blockSize > 0
    ensures c == Product(a, b, n)
  {
    c := MatMultTiled(a, b, Zero(n), n, blockSize);
    var p := Product(a, b, n);
    forall i | 0 <= i < n
      ensures c[i] == p[i]
    {
      assert forall j :: 0 <= j < n ==> c[i][j] == p[i][j];
    }
  }

  // ------------------------------------------------------------ the driver

  /** The size and block size main() uses. */
  const DriverN: nat := 256
  const DriverBlockSize: nat := 64

  /** A[i][j] = i + j and B[i][j] = i - j, as main() fills them. */
  function DriverA(n: nat): (m: Matrix)
    ensures Square(m, n)
  {
    seq(n, i => seq(n, j => i + j))
  }

  function DriverB(n: nat): (m: Matrix)
    ensures Square(m, n)
  {
    seq(n, i => seq(n, j => i - j))
  }

  function Abs(x: int): nat {
    if x < 0 then -x else x
  }

  lemma AbsMul(x: int, y: int, mx: nat, my: nat)
    requires Abs(x) <= mx && Abs(y) <= my
    ensures Abs(x * y) <= mx * my
  {
    assert Abs(x * y) == Abs(x) * Abs(y);
    assert Abs(x) * Abs(y) <= mx * Abs(y) <= mx * my;
  }

  /** Each partial dot product is bounded by its length times the largest
      possible products of entries. */
  lemma {:induction false} DotBound(a: Matrix, b: Matrix, n: nat, i: nat, j: nat, hi: nat, ma: nat, mb: nat)
    requires Square(a, n) && Square(b, n) && i < n && j < n && hi <= n
    requires forall k :: 0 <= k < n ==> Abs(a[i][k]) <= ma && Abs(b[k][j]) <= mb
    ensures Abs(Dot(a, b, n, i, j, 0, hi)) <= hi * (ma * mb)
  {
    if hi > 0 {
      var m := ma * mb;
      var prev := Dot(a, b, n, i, j, 0, hi - 1);
      var step := a[i][hi - 1] * b[hi - 1][j];
      DotBound(a, b, n, i, j, hi - 1, ma, mb);
      AbsMul(a[i][hi - 1], b[hi - 1][j], ma, mb);
      assert Dot(a, b, n, i, j, 0, hi) == prev + step;
      assert Abs(prev + step) <= Abs(prev) + Abs(step);
      assert (hi - 1) * m + m == hi * m;
    }
  }

  /** In the driver's run every value C[i][j] takes, a partial dot product
      of the zeroed start, fits a 32-bit int, so the C int arithmetic never
      overflows there. */
  lemma DriverFitsInt32(i: nat, j: nat, k: nat)
    requires i < DriverN && j < DriverN && k <= DriverN
    ensures -0x8000_0000 <= Dot(DriverA(DriverN), DriverB(DriverN), DriverN, i, j, 0, k) < 0x8000_0000
  {
    var a, b := DriverA(DriverN), DriverB(DriverN);
    forall t | 0 <= t < DriverN
      ensures Abs(a[i][t]) <= 510 && Abs(b[t][j]) <= 255
    {
    }
    DotBound(a, b, DriverN, i, j, k, 510, 255);
    assert k * (510 * 255) <= 256 * (510 * 255);
  }
}
