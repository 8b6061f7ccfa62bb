/** The reference definitions behind vf_ansnr.c: the two smoothing kernels,
    the mirror-bounded convolution, the signal and noise sums, the two
    scores, and the peak and cap chosen per pixel format. */
module AnsnrModel {
  import opened Layout

  datatype Option<T> = None | Some(value: T)

  /** OPT_RANGE_PIXEL_OFFSET: samples are centred on 128 before filtering. */
  const PixelOffset: int := -128

  /** ansnr_filter2d_ref_width and ansnr_filter2d_dis_width. */
  const RefWidth: nat := 3
  const DisWidth: nat := 5

  /** ansnr_filter2d_ref: the 3x3 binomial kernel, weights over 16. */
  const RefFilter: seq<real> := [
    1.0 / 16.0, 2.0 / 16.0, 1.0 / 16.0,
    2.0 / 16.0, 4.0 / 16.0, 2.0 / 16.0,
    1.0 / 16.0, 2.0 / 16.0, 1.0 / 16.0]

  /** ansnr_filter2d_dis: the 5x5 kernel, weights over 571. */
  const DisFilter: seq<real> := [
    2.0 / 571.0, 7.0 / 571.0, 12.0 / 571.0, 7.0 / 571.0, 2.0 / 571.0,
    7.0 / 571.0, 31.0 / 571.0, 52.0 / 571.0, 31.0 / 571.0, 7.0 / 571.0,
    12.0 / 571.0, 52.0 / 571.0, 127.0 / 571.0, 52.0 / 571.0, 12.0 / 571.0,
    7.0 / 571.0, 31.0 / 571.0, 52.0 / 571.0, 31.0 / 571.0, 7.0 / 571.0,
    2.0 / 571.0, 7.0 / 571.0, 12.0 / 571.0, 7.0 / 571.0, 2.0 / 571.0]

  lemma RowIndex(fw: nat, fi: int)
    requires 0 <= fi < fw
    ensures 0 <= fi * fw && fi * fw + fw <= fw * fw
  {
    MulMono(0, fi, fw);
    MulMono(fi + 1, fw, fw);
  }

  /** Kernel row fi of a row-major fw x fw kernel: the fcoeff values
      f[fi * fwidth + fj] for fj < fwidth. */
  function KernelRow(f: seq<real>, fw: nat, fi: int): (r: seq<real>)
    requires |f| == fw * fw && 0 <= fi < fw
    ensures |r| == fw
  {
    RowIndex(fw, fi);
    f[fi * fw .. fi * fw + fw]
  }

  /** The row-major kernel f as the matrix of its rows. */
  function KernelOf(f: seq<real>, fw: nat): (K: Matrix<real>)
    requires |f| == fw * fw
    ensures IsMatrix(K, fw, fw)
  {
    seq(fw, fi requires 0 <= fi < fw => KernelRow(f, fw, fi))
  }

  /** A square kernel over a w x h image, both of whose extents exceed
      half the kernel's width, so that every mirrored tap lands inside. */
  predicate KernelFits(K: Matrix<real>, w: nat, h: nat)
  {
    |K| >= 1 && IsMatrix(K, |K|, |K|) && w > |K| / 2 && h > |K| / 2
  }

  /** A picture whose samples all equal the offset's opposite (mid-grey,
      128) is centred to zero. */
  predicate MidGrey(S: Matrix<int>, w: nat, h: nat)
    requires IsMatrix(S, w, h)
  {
    forall a, b :: 0 <= a < h && 0 <= b < w ==> S[a][b] == -PixelOffset
  }

  /** imgcoeff: the sample tap (fi, fj) of a kernel of width fw reads for
      cell (i, j), at the mirrored position, plus the pixel offset. It is
      the tap's own sample whenever the tap lies inside the image, and zero
      on a mid-grey picture. */
  function Centred(S: Matrix<int>, fw: nat, w: nat, h: nat, i: int, j: int, fi: int, fj: int): (r: real)
    requires IsMatrix(S, w, h) && w > fw / 2 && h > fw / 2
    requires 0 <= i < h && 0 <= j < w && 0 <= fi < fw && 0 <= fj < fw
    ensures MidGrey(S, w, h) ==> r == 0.0
    ensures 0 <= KernelTap(i, fw, fi) < h && 0 <= KernelTap(j, fw, fj) < w ==>
      r == (S[KernelTap(i, fw, fi)][KernelTap(j, fw, fj)] + PixelOffset) as real
  {
    ReflectOnceInBounds(i, h, fw, fi);
    ReflectOnceInBounds(j, w, fw, fj);
    (S[ReflectOnce(KernelTap(i, fw, fi), h)][ReflectOnce(KernelTap(j, fw, fj), w)] + PixelOffset) as real
  }

  /** The imgcoeff values kernel row fi reads for cell (i, j). */
  function Window(S: Matrix<int>, fw: nat, w: nat, h: nat, i: int, j: int, fi: int): (r: seq<real>)
    requires IsMatrix(S, w, h) && w > fw / 2 && h > fw / 2
    requires 0 <= i < h && 0 <= j < w && 0 <= fi < fw
    ensures |r| == fw
  {
    seq(fw, fj requires 0 <= fj < fw => Centred(S, fw, w, h, i, j, fi, fj))
  }

  /** The first n products a[k] * b[k], summed from k = 0 up. */
  function Dot(a: seq<real>, b: seq<real>, n: nat): real
    requires n <= |a| && n <= |b|
  {
    if n == 0 then 0.0 else Dot(a, b, n - 1) + a[n - 1] * b[n - 1]
  }

  /** One more product extends the dot product. */
  lemma DotStep(a: seq<real>, b: seq<real>, n: nat, x: real, y: real)
    requires n < |a| && n < |b| && a[n] == x && b[n] == y
    ensures Dot(a, b, n + 1) == Dot(a, b, n) + x * y
  {
  }

  /** The first n values of a, summed from k = 0 up. */
  function Sum(a: seq<real>, n: nat): real
    requires n <= |a|
  {
    if n == 0 then 0.0 else Sum(a, n - 1) + a[n - 1]
  }

  /** A dot product against zeros is zero. */
  lemma {:induction false} DotZero(a: seq<real>, b: seq<real>, n: nat)
    requires n <= |a| && n <= |b|
    ensures (forall k :: 0 <= k < n ==> b[k] == 0.0) ==> Dot(a, b, n) == 0.0
  {
    if n > 0 {
      DotZero(a, b, n - 1);
    }
  }

  /** accum after the kernel rows fi < n: each row contributes its
      accum_inner, the row's coefficients against its window. Whatever the
      kernel, a mid-grey picture accumulates zero. */
  function Cell(K: Matrix<real>, S: Matrix<int>, w: nat, h: nat, i: int, j: int, n: nat): (r: real)
    requires KernelFits(K, w, h) && IsMatrix(S, w, h) && 0 <= i < h && 0 <= j < w && n <= |K|
    ensures MidGrey(S, w, h) ==> r == 0.0
  {
    if n == 0 then 0.0
    else
      var win := Window(S, |K|, w, h, i, j, n - 1);
      DotZero(K[n - 1], win, |K|);
      Cell(K, S, w, h, i, j, n - 1) + Dot(K[n - 1], win, |K|)
  }

  /** The filtered image: cell (i, j) is the whole kernel sum at (i, j). */
  function Filter2d(K: Matrix<real>, S: Matrix<int>, w: nat, h: nat): (M: Matrix<real>)
    requires KernelFits(K, w, h) && IsMatrix(S, w, h)
    ensures IsMatrix(M, w, h)
    ensures forall i, j :: 0 <= i < h && 0 <= j < w ==> M[i][j] == Cell(K, S, w, h, i, j, |K|)
  {
    seq(h, i requires 0 <= i < h => seq(w, j requires 0 <= j < w => Cell(K, S, w, h, i, j, |K|)))
  }

  // ---------------------------------------------------------------------
  // The kernels' weights, and what a flat image filters to
  // ---------------------------------------------------------------------

  /** The weight of kernel rows fi < n: their coefficients summed. */
  function Weight(K: Matrix<real>, n: nat): real
    requires IsMatrix(K, |K|, |K|) && n <= |K|
  {
    if n == 0 then 0.0 else Weight(K, n - 1) + Sum(K[n - 1], |K|)
  }

  lemma SumOfThree(a: seq<real>)
    requires |a| == 3
    ensures Sum(a, 3) == a[0] + a[1] + a[2]
  {
    assert Sum(a, 1) == a[0];
  }

  lemma SumOfFive(a: seq<real>)
    requires |a| == 5
    ensures Sum(a, 5) == a[0] + a[1] + a[2] + a[3] + a[4]
  {
    assert Sum(a, 1) == a[0];
    assert Sum(a, 3) == a[0] + a[1] + a[2];
  }

  /** The 3x3 kernel is normalised: its weights sum to one. */
  lemma RefKernelNormalised()
    ensures Weight(KernelOf(RefFilter, RefWidth), RefWidth) == 1.0
  {
    var K := KernelOf(RefFilter, RefWidth);
    SumOfThree(K[0]);
    SumOfThree(K[1]);
    SumOfThree(K[2]);
    assert Weight(K, 1) == 4.0 / 16.0;
    assert Weight(K, 2) == 12.0 / 16.0;
  }

  lemma DisRowWeight(fi: int)
    requires 0 <= fi < DisWidth
    ensures Sum(KernelOf(DisFilter, DisWidth)[fi], DisWidth) == DisFilter[5 * fi] + DisFilter[5 * fi + 1]
      + DisFilter[5 * fi + 2] + DisFilter[5 * fi + 3] + DisFilter[5 * fi + 4]
  {
    SumOfFive(KernelOf(DisFilter, DisWidth)[fi]);
  }

  /** The rows of the 5x5 kernel weigh 30, 128, 255, 128 and 30 over 571. */
  lemma DisRowTotals()
    ensures DisFilter[0] + DisFilter[1] + DisFilter[2] + DisFilter[3] + DisFilter[4] == 30.0 / 571.0
    ensures DisFilter[5] + DisFilter[6] + DisFilter[7] + DisFilter[8] + DisFilter[9] == 128.0 / 571.0
    ensures DisFilter[10] + DisFilter[11] + DisFilter[12] + DisFilter[13] + DisFilter[14] == 255.0 / 571.0
    ensures DisFilter[15] + DisFilter[16] + DisFilter[17] + DisFilter[18] + DisFilter[19] == 128.0 / 571.0
    ensures DisFilter[20] + DisFilter[21] + DisFilter[22] + DisFilter[23] + DisFilter[24] == 30.0 / 571.0
  {
  }

  /** The 5x5 kernel is normalised: its weights sum to one. */
  lemma DisKernelNormalised()
    ensures Weight(KernelOf(DisFilter, DisWidth), DisWidth) == 1.0
  {
    var K := KernelOf(DisFilter, DisWidth);
    DisRowTotals();
    DisRowWeight(0);
    DisRowWeight(1);
    DisRowWeight(2);
    DisRowWeight(3);
    DisRowWeight(4);
    assert Weight(K, 1) == 30.0 / 571.0;
    assert Weight(K, 2) == 158.0 / 571.0;
    assert Weight(K, 3) == 413.0 / 571.0;
    assert Weight(K, 4) == 541.0 / 571.0;
  }

  /** Every sample of S is c. */
  predicate Flat(S: Matrix<int>, c: int)
  {
    forall i, j :: 0 <= i < |S| && 0 <= j < |S[i]| ==> S[i][j] == c
  }

  lemma Distribute(a: real, k: real, x: real, s: real)
    requires s == a + k
    ensures s * x == a * x + k * x
  {
  }

  lemma UnitScale(s: real, b: real, x: real)
    requires s == b * x && b == 1.0
    ensures s == x
  {
  }

  /** n copies of x. */
  function Constant(n: nat, x: real): (r: seq<real>)
    ensures |r| == n && forall k :: 0 <= k < n ==> r[k] == x
  {
    seq(n, _ => x)
  }

  /** Against a constant b, a dot product is the sum of a times that constant. */
  lemma {:induction false} DotConstant(a: seq<real>, b: seq<real>, n: nat, x: real)
    requires n <= |a| && n <= |b|
    requires forall k :: 0 <= k < n ==> b[k] == x
    ensures Dot(a, b, n) == Sum(a, n) * x
  {
    if n > 0 {
      DotConstant(a, b, n - 1, x);
      Distribute(Sum(a, n - 1), a[n - 1], x, Sum(a, n));
    }
  }

  /** The kernel sum over rows fi < n against windows that read x at
      every tap. */
  function ConstantCell(K: Matrix<real>, x: real, n: nat): real
    requires IsMatrix(K, |K|, |K|) && n <= |K|
  {
    if n == 0 then 0.0 else ConstantCell(K, x, n - 1) + Dot(K[n - 1], Constant(|K|, x), |K|)
  }

  /** Against constant windows the kernel sum is the weight times the
      constant. */
  lemma {:induction false} ConstantCellScaled(K: Matrix<real>, x: real, n: nat)
    requires IsMatrix(K, |K|, |K|) && n <= |K|
    ensures ConstantCell(K, x, n) == Weight(K, n) * x
  {
    if n > 0 {
      ConstantCellScaled(K, x, n - 1);
      DotConstant(K[n - 1], Constant(|K|, x), |K|, x);
      Distribute(Weight(K, n - 1), Sum(K[n - 1], |K|), x, Weight(K, n));
    }
  }

  /** On a flat image every tap reads the same centred value. */
  lemma FlatWindow(S: Matrix<int>, fw: nat, w: nat, h: nat, c: int, i: int, j: int, fi: int)
    requires IsMatrix(S, w, h) && Flat(S, c) && w > fw / 2 && h > fw / 2
    requires 0 <= i < h && 0 <= j < w && 0 <= fi < fw
    ensures Window(S, fw, w, h, i, j, fi) == Constant(fw, (c + PixelOffset) as real)
  {
  }

  /** On a flat image the kernel sum is the one against constant windows. */
  lemma {:induction false} FlatCell(K: Matrix<real>, S: Matrix<int>, w: nat, h: nat, c: int, i: int, j: int, n: nat)
    requires KernelFits(K, w, h) && IsMatrix(S, w, h) && Flat(S, c)
    requires 0 <= i < h && 0 <= j < w && n <= |K|
    ensures Cell(K, S, w, h, i, j, n) == ConstantCell(K, (c + PixelOffset) as real, n)
  {
    if n > 0 {
      FlatCell(K, S, w, h, c, i, j, n - 1);
      FlatWindow(S, |K|, w, h, c, i, j, n - 1);
    }
  }

  /** A flat image of value c filters, under a normalised kernel that
      fits, to the flat image c - 128: the mirror only ever reads samples
      of the image. */
  lemma FlatFilter(K: Matrix<real>, S: Matrix<int>, w: nat, h: nat, c: int)
    requires KernelFits(K, w, h) && IsMatrix(S, w, h) && Flat(S, c) && Weight(K, |K|) == 1.0
    ensures forall i, j :: 0 <= i < h && 0 <= j < w ==> Filter2d(K, S, w, h)[i][j] == (c + PixelOffset) as real
  {
    var x := (c + PixelOffset) as real;
    ConstantCellScaled(K, x, |K|);
    UnitScale(ConstantCell(K, x, |K|), Weight(K, |K|), x);
    forall i, j | 0 <= i < h && 0 <= j < w
      ensures Filter2d(K, S, w, h)[i][j] == x
    {
      FlatCell(K, S, w, h, c, i, j, |K|);
    }
  }

  /** A flat image of value c filters, under either kernel, to the flat
      image c - 128: the kernels are normalised and the mirror only ever
      reads samples of the image. */
  lemma FlatFiltersToCentred(S: Matrix<int>, w: nat, h: nat, c: int)
    requires IsMatrix(S, w, h) && Flat(S, c) && w >= 3 && h >= 3
    ensures forall i, j :: 0 <= i < h && 0 <= j < w ==>
      Filter2d(KernelOf(RefFilter, RefWidth), S, w, h)[i][j] == (c + PixelOffset) as real
    ensures forall i, j :: 0 <= i < h && 0 <= j < w ==>
      Filter2d(KernelOf(DisFilter, DisWidth), S, w, h)[i][j] == (c + PixelOffset) as real
  {
    RefKernelNormalised();
    DisKernelNormalised();
    FlatFilter(KernelOf(RefFilter, RefWidth), S, w, h, c);
    FlatFilter(KernelOf(DisFilter, DisWidth), S, w, h, c);
  }

  // ---------------------------------------------------------------------
  // ansnr_mse: signal and noise
  // ---------------------------------------------------------------------

  /** pow_2: base times itself. */
  function Sq(x: real): real
  {
    x * x
  }

  lemma ProductPositive(a: real, b: real, s: real)
    requires a > 0.0 && b > 0.0 && s == a * b
    ensures s > 0.0
  {
  }

  /** A square is never negative, and is zero only for zero. */
  lemma SqFacts(x: real)
    ensures Sq(x) >= 0.0
    ensures x != 0.0 ==> Sq(x) > 0.0
  {
    if x > 0.0 {
      ProductPositive(x, x, Sq(x));
    } else if x < 0.0 {
      ProductPositive(-x, -x, Sq(x));
    }
  }

  /** The signal of row r over its first n samples: the sum of their squares. */
  function RowSignal(r: seq<real>, n: nat): (s: real)
    requires n <= |r|
    ensures s >= 0.0
  {
    if n == 0 then 0.0 else SqFacts(r[n - 1]); RowSignal(r, n - 1) + Sq(r[n - 1])
  }

  /** The noise between rows r and d over their first n samples: the sum
      of the squared differences. */
  function RowNoise(r: seq<real>, d: seq<real>, n: nat): (s: real)
    requires n <= |r| && n <= |d|
    ensures s >= 0.0
  {
    if n == 0 then 0.0 else SqFacts(r[n - 1] - d[n - 1]); RowNoise(r, d, n - 1) + Sq(r[n - 1] - d[n - 1])
  }

  /** signal_sum over the rows i < n of a w x h plane. */
  function Signal(R: Matrix<real>, w: nat, h: nat, n: nat): (s: real)
    requires IsMatrix(R, w, h) && n <= h
    ensures s >= 0.0
  {
    if n == 0 then 0.0 else Signal(R, w, h, n - 1) + RowSignal(R[n - 1], w)
  }

  /** noise_sum over the rows i < n of two w x h planes. */
  function Noise(R: Matrix<real>, D: Matrix<real>, w: nat, h: nat, n: nat): (s: real)
    requires IsMatrix(R, w, h) && IsMatrix(D, w, h) && n <= h
    ensures s >= 0.0
  {
    if n == 0 then 0.0 else Noise(R, D, w, h, n - 1) + RowNoise(R[n - 1], D[n - 1], w)
  }

  lemma {:induction false} RowNoiseZeroIff(r: seq<real>, d: seq<real>, n: nat)
    requires n <= |r| && n <= |d|
    ensures RowNoise(r, d, n) == 0.0 <==> r[..n] == d[..n]
  {
    if n > 0 {
      RowNoiseZeroIff(r, d, n - 1);
      SqFacts(r[n - 1] - d[n - 1]);
      assert r[..n] == r[..n - 1] + [r[n - 1]] && d[..n] == d[..n - 1] + [d[n - 1]];
      if r[..n] == d[..n] {
        assert r[..n - 1] == r[..n][..n - 1] && d[..n - 1] == d[..n][..n - 1];
        assert r[n - 1] == r[..n][n - 1];
      }
    }
  }

  lemma {:induction false} NoiseZeroIffRows(R: Matrix<real>, D: Matrix<real>, w: nat, h: nat, n: nat)
    requires IsMatrix(R, w, h) && IsMatrix(D, w, h) && n <= h
    ensures Noise(R, D, w, h, n) == 0.0 <==> R[..n] == D[..n]
  {
    if n > 0 {
      NoiseZeroIffRows(R, D, w, h, n - 1);
      RowNoiseZeroIff(R[n - 1], D[n - 1], w);
      assert R[n - 1][..w] == R[n - 1] && D[n - 1][..w] == D[n - 1];
      assert R[..n] == R[..n - 1] + [R[n - 1]] && D[..n] == D[..n - 1] + [D[n - 1]];
      if R[..n] == D[..n] {
        assert R[..n - 1] == R[..n][..n - 1] && D[..n - 1] == D[..n][..n - 1];
        assert R[n - 1] == R[..n][n - 1];
      }
    }
  }

  /** The noise between two filtered planes is zero exactly when the planes
      are equal. */
  lemma NoiseZeroIff(R: Matrix<real>, D: Matrix<real>, w: nat, h: nat)
    requires IsMatrix(R, w, h) && IsMatrix(D, w, h)
    ensures Noise(R, D, w, h, h) == 0.0 <==> R == D
  {
    NoiseZeroIffRows(R, D, w, h, h);
    assert R[..h] == R && D[..h] == D;
  }

  // ---------------------------------------------------------------------
  // compute_ansnr's scores
  // ---------------------------------------------------------------------

  /** eps: the least divisor of the PSNR ratio. */
  const Eps: real := 0.0000000001

  function Max(a: real, b: real): real { if a > b then a else b }

  function Min(a: real, b: real): real { if a < b then a else b }

  /** *score: psnr_max without noise, otherwise 10 log10(signal / noise). */
  function AnsnrScore(signal: real, noise: real, psnrMax: real, log10: real -> real): (r: real)
    ensures noise == 0.0 ==> r == psnrMax
  {
    if noise == 0.0 then psnrMax else 10.0 * log10(signal / noise)
  }

  /** The divisor of the PSNR ratio is never zero, whatever the noise. */
  lemma PsnrDivisorPositive(noise: real)
    ensures Max(noise, Eps) > 0.0
  {
  }

  /** *score_psnr: 10 log10(peak^2 w h / max(noise, eps)), capped at psnr_max. */
  function PsnrScore(peak: real, w: nat, h: nat, noise: real, psnrMax: real, log10: real -> real): (r: real)
    ensures r <= psnrMax
    ensures r == psnrMax || r == 10.0 * log10(Sq(peak) * (w as real) * (h as real) / Max(noise, Eps))
  {
    PsnrDivisorPositive(noise);
    Min(10.0 * log10(Sq(peak) * (w as real) * (h as real) / Max(noise, Eps)), psnrMax)
  }

  /** Both scores of compute_ansnr, from the two source images: the
      reference filtered by the 3x3 kernel, the distorted image by the 5x5. */
  datatype Scores = Scores(score: real, scorePsnr: real)

  function AnsnrOf(S: Matrix<int>, T: Matrix<int>, w: nat, h: nat, peak: real, psnrMax: real, log10: real -> real): (r: Scores)
    requires IsMatrix(S, w, h) && IsMatrix(T, w, h) && w >= 3 && h >= 3
    ensures r.scorePsnr <= psnrMax
    ensures Filter2d(KernelOf(RefFilter, RefWidth), S, w, h) == Filter2d(KernelOf(DisFilter, DisWidth), T, w, h)
      ==> r.score == psnrMax
  {
    var FR := Filter2d(KernelOf(RefFilter, RefWidth), S, w, h);
    var FD := Filter2d(KernelOf(DisFilter, DisWidth), T, w, h);
    NoiseZeroIff(FR, FD, w, h);
    var noise := Noise(FR, FD, w, h, h);
    Scores(AnsnrScore(Signal(FR, w, h, h), noise, psnrMax, log10), PsnrScore(peak, w, h, noise, psnrMax, log10))
  }

  /** The scores of two images from the signal and noise of their filtered planes. */
  lemma AnsnrOfSums(S: Matrix<int>, T: Matrix<int>, w: nat, h: nat, peak: real, psnrMax: real, log10: real -> real,
                    FR: Matrix<real>, FD: Matrix<real>, signal: real, noise: real)
    requires IsMatrix(S, w, h) && IsMatrix(T, w, h) && w >= 3 && h >= 3
    requires FR == Filter2d(KernelOf(RefFilter, RefWidth), S, w, h) && FD == Filter2d(KernelOf(DisFilter, DisWidth), T, w, h)
    requires signal == Signal(FR, w, h, h) && noise == Noise(FR, FD, w, h, h)
    ensures AnsnrOf(S, T, w, h, peak, psnrMax, log10)
      == Scores(AnsnrScore(signal, noise, psnrMax, log10), PsnrScore(peak, w, h, noise, psnrMax, log10))
  {
  }

  /** Two flat images of the same value filter to equal planes, so there
      is no noise and the score is psnr_max. */
  lemma FlatEqualScoresMax(S: Matrix<int>, T: Matrix<int>, w: nat, h: nat, c: int, peak: real, psnrMax: real, log10: real -> real)
    requires IsMatrix(S, w, h) && IsMatrix(T, w, h) && Flat(S, c) && Flat(T, c) && w >= 3 && h >= 3
    ensures AnsnrOf(S, T, w, h, peak, psnrMax, log10).score == psnrMax
  {
    var FR := Filter2d(KernelOf(RefFilter, RefWidth), S, w, h);
    var FD := Filter2d(KernelOf(DisFilter, DisWidth), T, w, h);
    FlatFiltersToCentred(S, w, h, c);
    FlatFiltersToCentred(T, w, h, c);
    assert forall i :: 0 <= i < h ==> FR[i] == FD[i];
    assert FR == FD;
  }

  // ---------------------------------------------------------------------
  // do_ansnr: peak and cap per pixel format
  // ---------------------------------------------------------------------

  /** The peak sample value on the 8-bit scale, the PSNR cap, and the
      bytes per sample that do_ansnr picks for a format. */
  datatype Selection = Selection(peak: real, maxPsnr: real, sampleBytes: nat)

  /** do_ansnr's strcmp chain: the 8-bit planar formats, then the 10-bit
      little-endian ones; any other name selects nothing. */
  function PeakAndCap(format: string): (r: Option<Selection>)
    ensures r.Some? <==> format in AcceptedFormats
  {
    if format == "yuv420p" || format == "yuv422p" || format == "yuv444p" then
      Some(Selection(255.0, 60.0, 1))
    else if format == "yuv420p10le" || format == "yuv422p10le" || format == "yuv444p10le" then
      Some(Selection(255.75, 72.0, 2))
    else None
  }

  /** query_formats: the six pixel formats the filter negotiates. */
  const AcceptedFormats: seq<string> :=
    ["yuv444p", "yuv422p", "yuv420p", "yuv444p10le", "yuv422p10le", "yuv420p10le"]

  /** Bits per sample as the format name tells it. */
  function BitDepth(format: string): nat
  {
    if |format| >= 4 && format[|format| - 4..] == "10le" then 10 else 8
  }

  function TwoTo(n: nat): nat
  {
    if n == 0 then 1 else 2 * TwoTo(n - 1)
  }

  /** For every accepted format the peak is the largest sample value
      brought to the 8-bit scale, (2^bits - 1) / 2^(bits - 8), the sample
      width is the bytes the bit depth needs, and 10-bit content gets the
      higher cap. */
  lemma PeakMatchesBitDepth(format: string)
    requires format in AcceptedFormats
    ensures var sel := PeakAndCap(format).value;
      var bits := BitDepth(format);
      && bits >= 8
      && sel.peak * (TwoTo(bits - 8) as real) == (TwoTo(bits) - 1) as real
      && sel.sampleBytes == (bits + 7) / 8
      && sel.maxPsnr == (if bits == 8 then 60.0 else 72.0)
  {
    assert TwoTo(2) == 4;
    assert TwoTo(8) == 256;
    assert TwoTo(10) == 1024;
  }

  // ---------------------------------------------------------------------
  // The source stride of ansnr_filter2d
  // ---------------------------------------------------------------------

  /** sizeof(sz) in ansnr_filter2d, where sz is a uint8_t variable. */
  const SizeofSz: nat := 1

  /** src_px_stride as written: the byte stride over sizeof(sz), which is
      one whatever the sample width. */
  function SrcPxStrideAsWritten(srcStride: nat): (r: nat)
    ensures r == srcStride
  {
    srcStride / SizeofSz
  }

  /** r whole samples of b bytes fit in s bytes, and r + 1 do not. */
  predicate WholeSamples(r: nat, s: nat, b: nat)
  {
    r * b <= s < (r + 1) * b
  }

  /** The stride in samples: the whole samples that fit in a row of
      srcStride bytes. */
  function SrcPxStride(srcStride: nat, sampleBytes: nat): (r: nat)
    requires sampleBytes >= 1
    ensures WholeSamples(r, srcStride, sampleBytes)
  {
    srcStride / sampleBytes
  }

  /** A 10-bit frame 16 samples wide and 3 rows high (the smallest height
      compute_ansnr's 5x5 kernel stays inside) has 32-byte rows, so 96 bytes
      or 48 samples; ansnr_filter2d as written steps 32 samples per row and
      reads sample (2, 15) at index 79, past the frame, while the stride in
      samples puts it at 47, the frame's last sample. */
  lemma StrideAsWrittenOverreads()
    ensures var stride := AlignCeil(16 * 2);
      var samples := 3 * stride / 2;
      && samples == 48
      && 3 > DisWidth / 2
      && At(Plane(0, SrcPxStrideAsWritten(stride)), 2, 15) == 79
      && At(Plane(0, SrcPxStride(stride, 2)), 2, 15) == 47
  {
    assert AlignCeil(32) == 32;
  }

  /** With rows of ALIGN_CEIL(w * sampleBytes) bytes, as do_ansnr assumes,
      the stride in samples is at least w and h such rows hold exactly
      h * stride samples, so every sample the filter reads lies in the frame. */
  lemma SrcPxStrideFits(w: nat, h: nat, sampleBytes: nat)
    requires sampleBytes == 1 || sampleBytes == 2
    ensures var px := SrcPxStride(AlignCeil(w * sampleBytes), sampleBytes);
      && w <= px
      && px * sampleBytes == AlignCeil(w * sampleBytes)
      && Fits(Plane(0, px), w, h, h * px)
  {
    var bytes := AlignCeil(w * sampleBytes);
    AlignCeilIsLeastMultiple(w * sampleBytes);
    if sampleBytes == 2 {
      var q := bytes / 32;
      assert bytes == 32 * q;
      assert bytes / 2 == 16 * q;
    }
  }
}
