/** Reference definition of the ADM (detail-loss) metric on matrices of
    samples: the wavelet decomposition, decoupling, contrast-sensitivity
    weighting, contrast masking, border-excluded cube pooling and the
    four-level driver. The imperative kernels in module Adm are proved to
    compute exactly these values. */
module AdmModel {
  import opened Layout

  /** Constants of the metric that come from tables and closed forms outside
      the kernels: the two 4-tap wavelet filters, the reciprocal weights'
      quantisation steps per scale (orientation 1 and 2), the border factor
      of the pooling window and the cube root used by the pooling. */
  datatype AdmConsts = AdmConsts(
    lo: seq<real>,
    hi: seq<real>,
    factor1: seq<real>,
    factor2: seq<real>,
    borderFactor: real,
    cubeRoot: real -> real)

  predicate ValidConsts(c: AdmConsts)
  {
    && |c.lo| == 4 && |c.hi| == 4
    && |c.factor1| == 4 && |c.factor2| == 4
    && (forall s :: 0 <= s < 4 ==> c.factor1[s] > 0.0 && c.factor2[s] > 0.0)
    && c.borderFactor >= 0.0
  }

  function Abs(x: real): real
  {
    if x < 0.0 then -x else x
  }

  // ---------------------------------------------------------------------
  // Wavelet decomposition (adm_dwt2)
  // ---------------------------------------------------------------------

  /** Raw source index read by tap t for output i: `2 * i - 1 + filt_i`. */
  function DwtTap(i: int, t: int): int
  {
    2 * i - 1 + t
  }

  /** Every tap of an output inside the decimated half reads a mirrored
      sample inside the line. */
  lemma DwtTapInBounds(i: int, t: int, n: nat)
    requires n >= 2 && 0 <= i < Half(n) && 0 <= t < 4
    ensures 0 <= Reflect(DwtTap(i, t), n) < n
  {
  }

  /** Sum of the first k filter taps: the gain a flat line sees. */
  function TapTotal(taps: seq<real>, k: nat): real
    requires k <= |taps|
  {
    if k == 0 then 0.0 else TapTotal(taps, k - 1) + taps[k - 1]
  }

  /** Every sample of the line has the same value. */
  predicate FlatLine(xs: seq<real>)
    requires |xs| > 0
  {
    forall m :: 0 <= m < |xs| ==> xs[m] == xs[0]
  }

  /** The first k taps of the decimating filter at output i, accumulated in
      tap order over the mirrored samples of xs. */
  function TapSum(taps: seq<real>, xs: seq<real>, i: int, k: nat): real
    requires |taps| == 4 && k <= 4 && |xs| >= 2 && 0 <= i < Half(|xs|)
  {
    if k == 0 then 0.0
    else
      DwtTapInBounds(i, k - 1, |xs|);
      TapSum(taps, xs, i, k - 1) + taps[k - 1] * xs[Reflect(DwtTap(i, k - 1), |xs|)]
  }

  /** On a flat line the first k taps accumulate to the line's value times
      the sum of those k taps, whichever mirrored samples they read. */
  lemma {:induction false} TapSumFlat(taps: seq<real>, xs: seq<real>, i: int, k: nat)
    requires |taps| == 4 && k <= 4 && |xs| >= 2 && 0 <= i < Half(|xs|)
    ensures FlatLine(xs) ==> TapSum(taps, xs, i, k) == xs[0] * TapTotal(taps, k)
  {
    if k > 0 && FlatLine(xs) {
      TapSumFlat(taps, xs, i, k - 1);
      DwtTapInBounds(i, k - 1, |xs|);
      var x := xs[Reflect(DwtTap(i, k - 1), |xs|)];
      assert x == xs[0];
      assert TapSum(taps, xs, i, k) == TapSum(taps, xs, i, k - 1) + taps[k - 1] * x;
      FactorOut(xs[0], TapTotal(taps, k - 1), taps[k - 1]);
    }
  }

  lemma FactorOut(v: real, t: real, c: real)
    ensures v * t + c * v == v * (t + c)
  {
  }

  /** Tap k of the sum adds the tap weight times the mirrored sample x. */
  lemma TapSumStep(taps: seq<real>, xs: seq<real>, i: int, k: nat, x: real)
    requires |taps| == 4 && k < 4 && |xs| >= 2 && 0 <= i < Half(|xs|)
    requires 0 <= Reflect(DwtTap(i, k), |xs|) < |xs| && x == xs[Reflect(DwtTap(i, k), |xs|)]
    ensures TapSum(taps, xs, i, k + 1) == TapSum(taps, xs, i, k) + taps[k] * x
  {
  }

  /** One output sample of the mirror-bounded, 2x decimating 4-tap filter. */
  function Decimate(taps: seq<real>, xs: seq<real>, i: int): real
    requires |taps| == 4 && |xs| >= 2 && 0 <= i < Half(|xs|)
  {
    TapSum(taps, xs, i, 4)
  }

  /** A flat line comes out of the decimating filter scaled by the sum of the
      four taps, at every output, the mirrored border ones included. */
  lemma DecimateFlat(taps: seq<real>, xs: seq<real>, i: int)
    requires |taps| == 4 && |xs| >= 2 && 0 <= i < Half(|xs|)
    ensures FlatLine(xs) ==> Decimate(taps, xs, i) == xs[0] * (taps[0] + taps[1] + taps[2] + taps[3])
  {
    TapSumFlat(taps, xs, i, 4);
    assert TapTotal(taps, 4) == taps[0] + taps[1] + taps[2] + taps[3] by {
      assert TapTotal(taps, 1) == taps[0];
      assert TapTotal(taps, 2) == taps[0] + taps[1];
      assert TapTotal(taps, 3) == taps[0] + taps[1] + taps[2];
    }
  }

  function Column(M: Matrix<real>, c: int): (col: seq<real>)
    requires 0 <= c && forall r :: 0 <= r < |M| ==> c < |M[r]|
    ensures |col| == |M| && forall r :: 0 <= r < |M| ==> col[r] == M[r][c]
  {
    seq(|M|, r requires 0 <= r < |M| => M[r][c])
  }

  /** Vertical pass for output row i: every column filtered and decimated. */
  function VertPass(taps: seq<real>, M: Matrix<real>, w: nat, h: nat, i: int): (row: seq<real>)
    requires |taps| == 4 && IsMatrix(M, w, h) && h >= 2 && 0 <= i < Half(h)
    ensures |row| == w
    ensures forall c :: 0 <= c < w ==> row[c] == Decimate(taps, Column(M, c), i)
  {
    seq(w, c requires 0 <= c < w => Decimate(taps, Column(M, c), i))
  }

  /** One subband: vertical filter vt, then horizontal filter ht. */
  function Dwt2Band(M: Matrix<real>, w: nat, h: nat, vt: seq<real>, ht: seq<real>): (B: Matrix<real>)
    requires |vt| == 4 && |ht| == 4 && IsMatrix(M, w, h) && w >= 2 && h >= 2
    ensures IsMatrix(B, Half(w), Half(h))
    ensures forall i, j :: 0 <= i < Half(h) && 0 <= j < Half(w) ==> B[i][j] == Decimate(ht, VertPass(vt, M, w, h, i), j)
  {
    seq(Half(h), i requires 0 <= i < Half(h) =>
      seq(Half(w), j requires 0 <= j < Half(w) => Decimate(ht, VertPass(vt, M, w, h, i), j)))
  }

  /** The three detail orientations of a subband quartet: 0 horizontal,
      1 vertical, 2 diagonal. */
  datatype Detail = Detail(h: Matrix<real>, v: Matrix<real>, d: Matrix<real>)

  /** A subband quartet: the approximation band and the detail bands. */
  datatype Quad = Quad(a: Matrix<real>, det: Detail)

  predicate IsDetail(D: Detail, w: int, h: int)
  {
    IsMatrix(D.h, w, h) && IsMatrix(D.v, w, h) && IsMatrix(D.d, w, h)
  }

  function Orient(D: Detail, theta: int): Matrix<real>
    requires 0 <= theta < 3
  {
    if theta == 0 then D.h else if theta == 1 then D.v else D.d
  }

  /** adm_dwt2: low-low is the approximation, low-high the vertical band,
      high-low the horizontal band and high-high the diagonal band. */
  function Dwt2(M: Matrix<real>, w: nat, h: nat, lo: seq<real>, hi: seq<real>): (q: Quad)
    requires |lo| == 4 && |hi| == 4 && IsMatrix(M, w, h) && w >= 2 && h >= 2
    ensures IsMatrix(q.a, Half(w), Half(h)) && IsDetail(q.det, Half(w), Half(h))
  {
    Quad(Dwt2Band(M, w, h, lo, lo),
         Detail(Dwt2Band(M, w, h, hi, lo), Dwt2Band(M, w, h, lo, hi), Dwt2Band(M, w, h, hi, hi)))
  }

  // ---------------------------------------------------------------------
  // Decoupling (adm_decouple)
  // ---------------------------------------------------------------------

  /** Added to the reference coefficient before dividing. */
  const Eps: real := 1e-30

  /** cos^2 of one degree, rounded. */
  const CosOneDegSq: real := 0.9996954135095479

  datatype Triple = Triple(h: real, v: real, d: real)

  function Clamp01(k: real): (r: real)
    ensures 0.0 <= r <= 1.0
    ensures 0.0 <= k <= 1.0 ==> r == k
    ensures k < 0.0 ==> r == 0.0
    ensures k > 1.0 ==> r == 1.0
  {
    if k < 0.0 then 0.0 else if k > 1.0 then 1.0 else k
  }

  /** Gain of a distorted coefficient t over its reference o, clamped into
      [0, 1]. Division is exact; the one reference value where o + Eps is
      zero is given gain 0. */
  function Gain(t: real, o: real): (k: real)
    ensures 0.0 <= k <= 1.0
    ensures o + Eps != 0.0 && 0.0 <= t / (o + Eps) <= 1.0 ==> k == t / (o + Eps)
  {
    Clamp01(if o + Eps == 0.0 then 0.0 else t / (o + Eps))
  }

  /** The (horizontal, vertical) reference and distorted vectors point the
      same way within one degree; identical coefficients always do. */
  function AngleFlag(o: Triple, t: Triple): (b: bool)
    ensures o == t ==> b
  {
    var m := o.h * o.h + o.v * o.v;
    assert m >= 0.0;
    assert m * m - CosOneDegSq * m * m == (1.0 - CosOneDegSq) * (m * m);
    assert (1.0 - CosOneDegSq) * (m * m) >= 0.0;
    var dp := o.h * t.h + o.v * t.v;
    dp >= 0.0 && dp * dp >= CosOneDegSq * (o.h * o.h + o.v * o.v) * (t.h * t.h + t.v * t.v)
  }

  /** Each reference coefficient scaled by its clamped gain: every one moves
      toward zero and keeps its sign. */
  function Shrunk(o: Triple, t: Triple): (r: Triple)
    ensures TowardZero(r.h, o.h) && TowardZero(r.v, o.v) && TowardZero(r.d, o.d)
  {
    var kh, kv, kd := Gain(t.h, o.h), Gain(t.v, o.v), Gain(t.d, o.d);
    ScaledTowardZero(kh, o.h);
    ScaledTowardZero(kv, o.v);
    ScaledTowardZero(kd, o.d);
    Triple(kh * o.h, kv * o.v, kd * o.d)
  }

  /** The part of the distorted detail explained by the reference: either the
      angle test hands over all three distorted values at once, or each is the
      reference shrunk toward zero. */
  function Restored(o: Triple, t: Triple): (r: Triple)
    ensures r == t || (TowardZero(r.h, o.h) && TowardZero(r.v, o.v) && TowardZero(r.d, o.d))
    ensures o == t ==> r == t
  {
    if AngleFlag(o, t) then t else Shrunk(o, t)
  }

  /** The additive impairment: restored plus impairment gives back the
      distorted values, and an undistorted coefficient has none. */
  function Impaired(o: Triple, t: Triple): (r: Triple)
    ensures var x := Restored(o, t); x.h + r.h == t.h && x.v + r.v == t.v && x.d + r.d == t.d
    ensures o == t ==> r == Triple(0.0, 0.0, 0.0)
  {
    var x := Restored(o, t);
    Triple(t.h - x.h, t.v - x.v, t.d - x.d)
  }

  /** r lies on the segment from 0 to o: the reference scaled by a factor in [0, 1]. */
  predicate TowardZero(r: real, o: real)
  {
    if o >= 0.0 then 0.0 <= r <= o else o <= r <= 0.0
  }

  lemma ScaledTowardZero(k: real, o: real)
    requires 0.0 <= k <= 1.0
    ensures TowardZero(k * o, o)
  {
    if o >= 0.0 {
      assert o - k * o == (1.0 - k) * o;
    } else {
      assert k * o - o == (1.0 - k) * (-o);
    }
  }

  function CellOf(D: Detail, w: nat, h: nat, i: int, j: int): Triple
    requires IsDetail(D, w, h) && 0 <= i < h && 0 <= j < w
  {
    Triple(D.h[i][j], D.v[i][j], D.d[i][j])
  }

  function Component(t: Triple, theta: int): real
  {
    if theta == 0 then t.h else if theta == 1 then t.v else t.d
  }

  /** Orientation theta of the restored (restored true) or impairment
      (restored false) bands of a reference/distorted pair. */
  function DecoupleBand(O: Detail, T: Detail, w: nat, h: nat, theta: int, restored: bool): (M: Matrix<real>)
    requires IsDetail(O, w, h) && IsDetail(T, w, h)
    ensures IsMatrix(M, w, h)
    ensures forall i, j :: 0 <= i < h && 0 <= j < w ==>
      M[i][j] == Component(if restored then Restored(CellOf(O, w, h, i, j), CellOf(T, w, h, i, j))
                           else Impaired(CellOf(O, w, h, i, j), CellOf(T, w, h, i, j)), theta)
  {
    seq(h, i requires 0 <= i < h => seq(w, j requires 0 <= j < w =>
      var o, t := CellOf(O, w, h, i, j), CellOf(T, w, h, i, j);
      Component(if restored then Restored(o, t) else Impaired(o, t), theta)))
  }

  /** Restored detail bands of a reference/distorted pair. */
  function DecoupleR(O: Detail, T: Detail, w: nat, h: nat): (R: Detail)
    requires IsDetail(O, w, h) && IsDetail(T, w, h)
    ensures IsDetail(R, w, h)
  {
    Detail(DecoupleBand(O, T, w, h, 0, true), DecoupleBand(O, T, w, h, 1, true), DecoupleBand(O, T, w, h, 2, true))
  }

  /** Impairment detail bands of a reference/distorted pair. */
  function DecoupleA(O: Detail, T: Detail, w: nat, h: nat): (A: Detail)
    requires IsDetail(O, w, h) && IsDetail(T, w, h)
    ensures IsDetail(A, w, h)
  {
    Detail(DecoupleBand(O, T, w, h, 0, false), DecoupleBand(O, T, w, h, 1, false), DecoupleBand(O, T, w, h, 2, false))
  }

  // ---------------------------------------------------------------------
  // Contrast-sensitivity weighting (adm_csf)
  // ---------------------------------------------------------------------

  function Weighted(M: Matrix<real>, w: nat, h: nat, f: real): (W: Matrix<real>)
    requires IsMatrix(M, w, h)
    ensures IsMatrix(W, w, h)
    ensures forall i, j :: 0 <= i < h && 0 <= j < w ==> W[i][j] == f * M[i][j]
  {
    seq(h, i requires 0 <= i < h => seq(w, j requires 0 <= j < w => f * M[i][j]))
  }

  /** Reciprocal weight of orientation theta: horizontal and vertical share
      1 / factor1, diagonal uses 1 / factor2. */
  function RFactor(factor1: real, factor2: real, theta: int): (r: real)
    requires factor1 > 0.0 && factor2 > 0.0 && 0 <= theta < 3
    ensures r > 0.0
    ensures theta < 2 ==> r * factor1 == 1.0
    ensures theta == 2 ==> r * factor2 == 1.0
  {
    if theta == 2 then 1.0 / factor2 else 1.0 / factor1
  }

  function Csf(D: Detail, w: nat, h: nat, factor1: real, factor2: real): (C: Detail)
    requires IsDetail(D, w, h) && factor1 > 0.0 && factor2 > 0.0
    ensures IsDetail(C, w, h)
  {
    Detail(Weighted(D.h, w, h, RFactor(factor1, factor2, 0)),
           Weighted(D.v, w, h, RFactor(factor1, factor2, 1)),
           Weighted(D.d, w, h, RFactor(factor1, factor2, 2)))
  }

  // ---------------------------------------------------------------------
  // Contrast masking (adm_cm_thresh, adm_cm)
  // ---------------------------------------------------------------------

  /** 1/15 at the centre of the 3x3 window, 1/30 at the eight neighbours. */
  function MaskCoeff(fi: int, fj: int): (c: real)
    ensures c > 0.0
  {
    if fi == 1 && fj == 1 then 1.0 / 15.0 else 1.0 / 30.0
  }

  function MaskTerm(M: Matrix<real>, w: nat, h: nat, i: int, j: int, fi: int, fj: int): real
    requires IsMatrix(M, w, h) && 0 <= i < h && 0 <= j < w && 0 <= fi < 3 && 0 <= fj < 3
  {
    MaskCoeff(fi, fj) * Abs(M[Reflect(i - 1 + fi, h)][Reflect(j - 1 + fj, w)])
  }

  /** The first n taps of window row fi around (i, j): absolute values with
      positive weights, so never negative. */
  function MaskRow(M: Matrix<real>, w: nat, h: nat, i: int, j: int, fi: int, n: nat): (r: real)
    requires IsMatrix(M, w, h) && 0 <= i < h && 0 <= j < w && 0 <= fi < 3 && n <= 3
    ensures r >= 0.0
  {
    if n == 0 then 0.0
    else
      var x := Abs(M[Reflect(i - 1 + fi, h)][Reflect(j - 1 + n - 1, w)]);
      assert MaskCoeff(fi, n - 1) * x >= 0.0;
      MaskRow(M, w, h, i, j, fi, n - 1) + MaskTerm(M, w, h, i, j, fi, n - 1)
  }

  /** The first m window rows around (i, j); never negative. */
  function MaskSum(M: Matrix<real>, w: nat, h: nat, i: int, j: int, m: nat): (r: real)
    requires IsMatrix(M, w, h) && 0 <= i < h && 0 <= j < w && m <= 3
    ensures r >= 0.0
  {
    if m == 0 then 0.0 else MaskSum(M, w, h, i, j, m - 1) + MaskRow(M, w, h, i, j, m - 1, 3)
  }

  /** The threshold at (i, j) after t orientations have been accumulated;
      never negative. */
  function ThreshPartial(A: Detail, w: nat, h: nat, i: int, j: int, t: nat): (r: real)
    requires IsDetail(A, w, h) && 0 <= i < h && 0 <= j < w && t <= 3
    ensures r >= 0.0
  {
    if t == 0 then 0.0 else ThreshPartial(A, w, h, i, j, t - 1) + MaskSum(Orient(A, t - 1), w, h, i, j, 3)
  }

  /** The masking threshold plane built from the weighted impairment bands. */
  function Thresh(A: Detail, w: nat, h: nat): (T: Matrix<real>)
    requires IsDetail(A, w, h)
    ensures IsMatrix(T, w, h)
    ensures forall i, j :: 0 <= i < h && 0 <= j < w ==> T[i][j] == ThreshPartial(A, w, h, i, j, 3)
  {
    seq(h, i requires 0 <= i < h => seq(w, j requires 0 <= j < w => ThreshPartial(A, w, h, i, j, 3)))
  }

  /** Half-wave rectified excess of |x| over the threshold. */
  function CmCell(x: real, thr: real): (r: real)
    ensures r >= 0.0
    ensures r == 0.0 || r == Abs(x) - thr
    ensures thr >= 0.0 ==> r <= Abs(x)
  {
    var e := Abs(x) - thr;
    if e < 0.0 then 0.0 else e
  }

  function Masked(M: Matrix<real>, T: Matrix<real>, w: nat, h: nat): (R: Matrix<real>)
    requires IsMatrix(M, w, h) && IsMatrix(T, w, h)
    ensures IsMatrix(R, w, h)
    ensures forall i, j :: 0 <= i < h && 0 <= j < w ==> R[i][j] == CmCell(M[i][j], T[i][j])
  {
    seq(h, i requires 0 <= i < h => seq(w, j requires 0 <= j < w => CmCell(M[i][j], T[i][j])))
  }

  function Cm(R: Detail, T: Matrix<real>, w: nat, h: nat): (C: Detail)
    requires IsDetail(R, w, h) && IsMatrix(T, w, h)
    ensures IsDetail(C, w, h)
  {
    Detail(Masked(R.h, T, w, h), Masked(R.v, T, w, h), Masked(R.d, T, w, h))
  }

  // ---------------------------------------------------------------------
  // Border-excluded cube pooling (adm_sum_cube)
  // ---------------------------------------------------------------------

  /** C's conversion of a double to int: truncation toward zero. */
  function Trunc(x: real): (r: int)
    ensures x >= 0.0 ==> r == x.Floor
    ensures x > -1.0 ==> r >= 0
    ensures r as real <= x + 1.0 && x - 1.0 <= r as real
  {
    if x >= 0.0 then x.Floor else -((-x).Floor)
  }

  /** Margin excluded on each side of an n-long axis: `n * border_factor - 0.5` truncated. */
  function Border(n: nat, bf: real): (m: int)
    requires bf >= 0.0
    ensures m >= 0
  {
    assert n as real * bf >= 0.0;
    Trunc(n as real * bf - 0.5)
  }

  function Cube(x: real): real
  {
    x * x * x
  }

  /** Sum of |row[c]|^3 for c in [left, j). */
  function CubeRow(row: seq<real>, left: int, j: int): (r: real)
    requires 0 <= left && j <= |row|
    ensures r >= 0.0
    decreases j - left
  {
    if j <= left then 0.0
    else
      var x := Abs(row[j - 1]);
      assert x * x >= 0.0;
      CubeRow(row, left, j - 1) + Cube(x)
  }

  /** Sum over rows [top, i) of the row sums over columns [left, right). */
  function CubeRows(M: Matrix<real>, left: int, right: int, top: int, i: int): (r: real)
    requires 0 <= left && 0 <= top && i <= |M|
    requires forall k :: 0 <= k < |M| ==> right <= |M[k]|
    ensures r >= 0.0
    decreases i - top
  {
    if i <= top then 0.0
    else CubeRows(M, left, right, top, i - 1) + CubeRow(M[i - 1], left, right)
  }

  /** The pooling window of a w x h band: rows [top, h - top), columns [left, w - left). */
  datatype PoolRect = PoolRect(left: int, top: int, right: int, bottom: int)

  function PoolWindow(w: nat, h: nat, bf: real): (win: PoolRect)
    requires bf >= 0.0
    ensures 0 <= win.left && win.right <= w && 0 <= win.top && win.bottom <= h
    ensures win.right - win.left == w - 2 * win.left && win.bottom - win.top == h - 2 * win.top
  {
    var left := Border(w, bf);
    var top := Border(h, bf);
    PoolRect(left, top, w - left, h - top)
  }

  function CubeSum(M: Matrix<real>, w: nat, h: nat, bf: real): (r: real)
    requires IsMatrix(M, w, h) && bf >= 0.0
    ensures r >= 0.0
  {
    var win := PoolWindow(w, h, bf);
    CubeRows(M, win.left, win.right, win.top, win.bottom)
  }

  /** Cube root of the window's cube sum plus the cube root of a thirty-second
      of the window's area; the window keeps a border of Border(n, bf)
      samples off each side of both axes. */
  function Pool(M: Matrix<real>, w: nat, h: nat, bf: real, cubeRoot: real -> real): (r: real)
    requires IsMatrix(M, w, h) && bf >= 0.0
    ensures r == cubeRoot(CubeSum(M, w, h, bf))
      + cubeRoot(((h - 2 * Border(h, bf)) * (w - 2 * Border(w, bf))) as real / 32.0)
  {
    var win := PoolWindow(w, h, bf);
    cubeRoot(CubeSum(M, w, h, bf))
      + cubeRoot(((win.bottom - win.top) * (win.right - win.left)) as real / 32.0)
  }

  lemma {:induction false} CubeRowAbs(r1: seq<real>, r2: seq<real>, left: int, j: int)
    requires 0 <= left && j <= |r1| && |r1| == |r2|
    requires forall c :: 0 <= c < |r1| ==> Abs(r1[c]) == Abs(r2[c])
    ensures CubeRow(r1, left, j) == CubeRow(r2, left, j)
    decreases j - left
  {
    if j > left {
      CubeRowAbs(r1, r2, left, j - 1);
    }
  }

  lemma {:induction false} CubeRowsAbs(M1: Matrix<real>, M2: Matrix<real>, w: nat, h: nat, left: int, right: int, top: int, i: int)
    requires IsMatrix(M1, w, h) && IsMatrix(M2, w, h) && 0 <= left && 0 <= top && i <= h && right <= w
    requires forall r, c :: 0 <= r < h && 0 <= c < w ==> Abs(M1[r][c]) == Abs(M2[r][c])
    ensures CubeRows(M1, left, right, top, i) == CubeRows(M2, left, right, top, i)
    decreases i - top
  {
    if i > top {
      CubeRowsAbs(M1, M2, w, h, left, right, top, i - 1);
      CubeRowAbs(M1[i - 1], M2[i - 1], left, right);
    }
  }

  /** Pooling sees only magnitudes: bands with equal absolute values pool equally. */
  lemma PoolAbs(M1: Matrix<real>, M2: Matrix<real>, w: nat, h: nat, bf: real, cubeRoot: real -> real)
    requires IsMatrix(M1, w, h) && IsMatrix(M2, w, h) && bf >= 0.0
    requires forall r, c :: 0 <= r < h && 0 <= c < w ==> Abs(M1[r][c]) == Abs(M2[r][c])
    ensures Pool(M1, w, h, bf, cubeRoot) == Pool(M2, w, h, bf, cubeRoot)
  {
    var win := PoolWindow(w, h, bf);
    CubeRowsAbs(M1, M2, w, h, win.left, win.right, win.top, win.bottom);
  }

  // ---------------------------------------------------------------------
  // One pyramid level and the four-level driver (compute_adm2)
  // ---------------------------------------------------------------------

  /** What one level contributes: its masked numerator and its reference
      denominator. */
  datatype LevelOut = LevelOut(num: real, den: real)

  /** The stabilising term of one pooled band: the cube root of a
      thirty-second of the window's area. */
  function PoolArea(w: nat, h: nat, c: AdmConsts): real
    requires ValidConsts(c)
  {
    c.cubeRoot(((h - 2 * Border(h, c.borderFactor)) * (w - 2 * Border(w, c.borderFactor))) as real / 32.0)
  }

  /** One level's pooled total over the h, v and d bands: the three share
      one pooling window, so the area term is counted three times. */
  function PoolDetail(D: Detail, w: nat, h: nat, c: AdmConsts): real
    requires IsDetail(D, w, h) && ValidConsts(c)
  {
    0.0 + Pool(D.h, w, h, c.borderFactor, c.cubeRoot)
        + Pool(D.v, w, h, c.borderFactor, c.cubeRoot)
        + Pool(D.d, w, h, c.borderFactor, c.cubeRoot)
  }

  /** A level's pooled total is the three bands' cube-rooted cube sums plus
      the shared window's area term, counted once per band. */
  lemma PoolDetailSplit(D: Detail, w: nat, h: nat, c: AdmConsts)
    requires IsDetail(D, w, h) && ValidConsts(c)
    ensures PoolDetail(D, w, h, c) == c.cubeRoot(CubeSum(D.h, w, h, c.borderFactor))
      + c.cubeRoot(CubeSum(D.v, w, h, c.borderFactor))
      + c.cubeRoot(CubeSum(D.d, w, h, c.borderFactor)) + 3.0 * PoolArea(w, h, c)
  {
  }

  /** The level total sees only magnitudes: detail triples whose bands agree
      in absolute value pool to the same total. */
  lemma PoolDetailAbs(D1: Detail, D2: Detail, w: nat, h: nat, c: AdmConsts)
    requires IsDetail(D1, w, h) && IsDetail(D2, w, h) && ValidConsts(c)
    requires forall r, k :: 0 <= r < h && 0 <= k < w ==> Abs(D1.h[r][k]) == Abs(D2.h[r][k])
    requires forall r, k :: 0 <= r < h && 0 <= k < w ==> Abs(D1.v[r][k]) == Abs(D2.v[r][k])
    requires forall r, k :: 0 <= r < h && 0 <= k < w ==> Abs(D1.d[r][k]) == Abs(D2.d[r][k])
    ensures PoolDetail(D1, w, h, c) == PoolDetail(D2, w, h, c)
  {
    PoolAbs(D1.h, D2.h, w, h, c.borderFactor, c.cubeRoot);
    PoolAbs(D1.v, D2.v, w, h, c.borderFactor, c.cubeRoot);
    PoolAbs(D1.d, D2.d, w, h, c.borderFactor, c.cubeRoot);
  }

  /** One level on reference R and distorted D: decompose both, decouple,
      weight, mask the restored bands by the weighted impairment, and pool
      the masked restored bands (numerator) and the weighted reference
      bands (denominator). */
  function AdmLevel(R: Matrix<real>, D: Matrix<real>, w: nat, h: nat, c: AdmConsts, scale: nat): (r: LevelOut)
    requires ValidConsts(c) && scale < 4 && IsMatrix(R, w, h) && IsMatrix(D, w, h) && w >= 2 && h >= 2
    ensures R == D ==> r.num == r.den
  {
    var w2, h2 := Half(w), Half(h);
    var qr := Dwt2(R, w, h, c.lo, c.hi);
    // Scored against itself: nothing is impairment, the threshold is zero,
    // and masking by a zero threshold leaves the pooled value unchanged.
    DecoupleIdentical(qr.det, w2, h2);
    CsfOfZeros(w2, h2, c.factor1[scale], c.factor2[scale]);
    ThreshOfZeros(w2, h2);
    UnmaskedPool(Csf(qr.det, w2, h2, c.factor1[scale], c.factor2[scale]), w2, h2, c);
    var qd := Dwt2(D, w, h, c.lo, c.hi);
    var dr := DecoupleR(qr.det, qd.det, w2, h2);
    var da := DecoupleA(qr.det, qd.det, w2, h2);
    var co := Csf(qr.det, w2, h2, c.factor1[scale], c.factor2[scale]);
    var cr := Csf(dr, w2, h2, c.factor1[scale], c.factor2[scale]);
    var ca := Csf(da, w2, h2, c.factor1[scale], c.factor2[scale]);
    var t := Thresh(ca, w2, h2);
    var cm := Cm(cr, t, w2, h2);
    LevelOut(PoolDetail(cm, w2, h2, c), PoolDetail(co, w2, h2, c))
  }

  /** (numerator, denominator) of levels k .. 3, in level order, for level-k
      inputs R and D of w by h samples: level k scores R against D, and the
      next level works on the approximation bands of their decompositions. */
  function LevelsFrom(R: Matrix<real>, D: Matrix<real>, w: nat, h: nat, c: AdmConsts, k: nat): (ls: seq<(real, real)>)
    requires ValidConsts(c) && IsMatrix(R, w, h) && IsMatrix(D, w, h) && k <= 4
    requires LevelsFitFrom(w, k) && LevelsFitFrom(h, k)
    ensures |ls| == 4 - k
    decreases 4 - k, 1
  {
    if k == 4 then [] else LevelsAt(R, D, w, h, c, k)
  }

  /** Levels k .. 3 when level k exists: its own pair, then the levels of
      the approximation bands. */
  function LevelsAt(R: Matrix<real>, D: Matrix<real>, w: nat, h: nat, c: AdmConsts, k: nat): (ls: seq<(real, real)>)
    requires ValidConsts(c) && IsMatrix(R, w, h) && IsMatrix(D, w, h) && k < 4
    requires LevelsFitFrom(w, k) && LevelsFitFrom(h, k)
    ensures |ls| == 4 - k
    decreases 4 - k, 0
  {
    var lv := AdmLevel(R, D, w, h, c, k);
    [(lv.num, lv.den)] + LevelsFrom(Dwt2(R, w, h, c.lo, c.hi).a, Dwt2(D, w, h, c.lo, c.hi).a, Half(w), Half(h), c, k + 1)
  }

  /** (numerator, denominator) of each of the four levels. */
  function AdmLevels(R: Matrix<real>, D: Matrix<real>, w: nat, h: nat, c: AdmConsts): (ls: seq<(real, real)>)
    requires ValidConsts(c) && IsMatrix(R, w, h) && IsMatrix(D, w, h) && w >= 9 && h >= 9
    ensures |ls| == 4
  {
    FourLevelsFitIff(w);
    FourLevelsFitIff(h);
    LevelsFrom(R, D, w, h, c, 0)
  }

  /** The driver's bookkeeping after level k: when R and D, the inputs of
      level k, produce levels k .. 3 of the pyramid's list ls, entry k is
      their own level's pair, and the approximation bands produce the rest. */
  lemma AdvanceLevels(R: Matrix<real>, D: Matrix<real>, w: nat, h: nat, c: AdmConsts, k: nat, ls: seq<(real, real)>)
    requires ValidConsts(c) && IsMatrix(R, w, h) && IsMatrix(D, w, h) && k < 4
    requires LevelsFitFrom(w, k) && LevelsFitFrom(h, k)
    requires |ls| == 4 && LevelsFrom(R, D, w, h, c, k) == ls[k..]
    ensures var lv := AdmLevel(R, D, w, h, c, k);
      var q, qd := Dwt2(R, w, h, c.lo, c.hi), Dwt2(D, w, h, c.lo, c.hi);
      && ls[k] == (lv.num, lv.den)
      && LevelsFrom(q.a, qd.a, Half(w), Half(h), c, k + 1) == ls[k + 1..]
  {
    var lv := AdmLevel(R, D, w, h, c, k);
    var rest := LevelsFrom(Dwt2(R, w, h, c.lo, c.hi).a, Dwt2(D, w, h, c.lo, c.hi).a, Half(w), Half(h), c, k + 1);
    assert ls[k..] == [(lv.num, lv.den)] + rest;
    SuffixCons(ls, k, (lv.num, lv.den), rest);
  }

  /** A suffix that starts with x followed by rest has x at its first index. */
  lemma SuffixCons<T>(s: seq<T>, k: nat, x: T, rest: seq<T>)
    requires k < |s| && s[k..] == [x] + rest
    ensures s[k] == x && s[k + 1..] == rest
  {
    assert s[k..][1..] == s[k + 1..];
  }

  /** R and D, of w x h samples, are the inputs of level k of a pyramid
      whose four (numerator, denominator) pairs are ls. */
  ghost predicate PyramidAt(R: Matrix<real>, D: Matrix<real>, w: nat, h: nat, c: AdmConsts, k: nat, ls: seq<(real, real)>)
    requires ValidConsts(c)
  {
    && k <= 4 && IsMatrix(R, w, h) && IsMatrix(D, w, h)
    && LevelsFitFrom(w, k) && LevelsFitFrom(h, k)
    && |ls| == 4 && LevelsFrom(R, D, w, h, c, k) == ls[k..]
  }

  /** Noise floor scaled to the image area: 1e-2 * w * h / (1920 * 1080). */
  function NumDenLimit(w: nat, h: nat): (r: real)
    ensures r >= 0.0
    ensures w * h == 1920 * 1080 ==> r == 1e-2
  {
    1e-2 * (w * h) as real / (1920.0 * 1080.0)
  }

  /** The noise-floor test of one total: a value is either kept or, when
      below the limit, zeroed; a non-zero result is never below the limit. */
  function ZeroBelow(x: real, limit: real): (r: real)
    ensures r == x || (r == 0.0 && x < limit)
    ensures r != 0.0 ==> limit <= r
  {
    if x < limit then 0.0 else x
  }

  /** Numerator (den false) or denominator (den true) total over the first
      n levels, accumulated from 0 in level order. */
  function Total(ls: seq<(real, real)>, n: nat, den: bool): (t: real)
    requires n <= |ls|
    ensures (forall k :: 0 <= k < n ==> ls[k].0 >= 0.0 && ls[k].1 >= 0.0) ==> t >= 0.0
  {
    if n == 0 then 0.0 else Total(ls, n - 1, den) + (if den then ls[n - 1].1 else ls[n - 1].0)
  }

  /** The four-level totals written out. */
  lemma TotalOfFour(ls: seq<(real, real)>)
    requires |ls| == 4
    ensures Total(ls, 4, false) == 0.0 + ls[0].0 + ls[1].0 + ls[2].0 + ls[3].0
    ensures Total(ls, 4, true) == 0.0 + ls[0].1 + ls[1].1 + ls[2].1 + ls[3].1
  {
    assert Total(ls, 1, false) == 0.0 + ls[0].0 && Total(ls, 1, true) == 0.0 + ls[0].1;
    assert Total(ls, 2, false) == 0.0 + ls[0].0 + ls[1].0 && Total(ls, 2, true) == 0.0 + ls[0].1 + ls[1].1;
    assert Total(ls, 3, false) == 0.0 + ls[0].0 + ls[1].0 + ls[2].0;
    assert Total(ls, 3, true) == 0.0 + ls[0].1 + ls[1].1 + ls[2].1;
  }

  /** Result of compute_adm2: score, floored totals and the raw breakdown. */
  datatype AdmResult = AdmResult(score: real, num: real, den: real, scores: seq<real>)

  /** The scores array: each level's numerator then denominator, in level order. */
  function Breakdown(ls: seq<(real, real)>): (s: seq<real>)
    ensures |s| == 2 * |ls|
    decreases |ls|
  {
    if ls == [] then [] else Breakdown(ls[..|ls| - 1]) + [ls[|ls| - 1].0, ls[|ls| - 1].1]
  }

  /** The breakdown of all four levels fills the whole scores array. */
  lemma WholeBreakdown(s: seq<real>, ls: seq<(real, real)>)
    requires |s| == 8 && |ls| == 4 && s[..8] == Breakdown(ls[..4])
    ensures s == Breakdown(ls)
  {
    assert s[..8] == s && ls[..4] == ls;
  }

  /** Appending a level appends its pair to the breakdown. */
  lemma BreakdownSnoc(ls: seq<(real, real)>, x: (real, real))
    ensures Breakdown(ls + [x]) == Breakdown(ls) + [x.0, x.1]
  {
    assert (ls + [x])[..|ls|] == ls;
  }

  /** Entry 2k of the breakdown is level k's numerator, entry 2k + 1 its denominator. */
  lemma {:induction false} BreakdownAt(ls: seq<(real, real)>)
    ensures forall k :: 0 <= k < |ls| ==> Breakdown(ls)[2 * k] == ls[k].0 && Breakdown(ls)[2 * k + 1] == ls[k].1
    decreases |ls|
  {
    if ls != [] {
      var init := ls[..|ls| - 1];
      BreakdownAt(init);
      assert ls == init + [ls[|ls| - 1]];
      BreakdownSnoc(init, ls[|ls| - 1]);
    }
  }

  /** The driver's tail: the breakdown array in level order, the totals
      floored at the noise limit, and the score, 1.0 when the floored
      denominator is zero. */
  function Summarise(ls: seq<(real, real)>, w: nat, h: nat): (res: AdmResult)
    requires |ls| == 4
    ensures |res.scores| == 8
    ensures forall k :: 0 <= k < 4 ==> res.scores[2 * k] == ls[k].0 && res.scores[2 * k + 1] == ls[k].1
    ensures var s := res.scores;
      && res.num == ZeroBelow(0.0 + s[0] + s[2] + s[4] + s[6], NumDenLimit(w, h))
      && res.den == ZeroBelow(0.0 + s[1] + s[3] + s[5] + s[7], NumDenLimit(w, h))
    ensures res.den == 0.0 ==> res.score == 1.0
    ensures res.den != 0.0 ==> res.score == res.num / res.den
  {
    TotalOfFour(ls);
    BreakdownAt(ls);
    var num := ZeroBelow(Total(ls, 4, false), NumDenLimit(w, h));
    var den := ZeroBelow(Total(ls, 4, true), NumDenLimit(w, h));
    AdmResult(if den == 0.0 then 1.0 else num / den, num, den, Breakdown(ls))
  }

  /** A picture scored against an exact copy of itself scores 1.0, whether or
      not the noise floor zeroes the totals. */
  function AdmScore(R: Matrix<real>, D: Matrix<real>, w: nat, h: nat, c: AdmConsts): (r: AdmResult)
    requires ValidConsts(c) && IsMatrix(R, w, h) && IsMatrix(D, w, h) && w >= 9 && h >= 9
    ensures R == D ==> r.score == 1.0 && r.num == r.den
  {
    var ls := AdmLevels(R, D, w, h, c);
    if R == D then
      FourLevelsFitIff(w);
      FourLevelsFitIff(h);
      LevelsFromIdentical(R, w, h, c, 0);
      BalancedScoresOne(ls, w, h);
      Summarise(ls, w, h)
    else
      Summarise(ls, w, h)
  }

  // ---------------------------------------------------------------------
  // Range: every pooled value, total and score is non-negative
  // ---------------------------------------------------------------------

  /** A cube root that keeps non-negative values non-negative, as powf(x, 1/3) does. */
  ghost predicate RootNonneg(cubeRoot: real -> real)
  {
    forall x :: x >= 0.0 ==> cubeRoot(x) >= 0.0
  }

  /** With a border factor of at most one half, the two margins of an axis
      never overlap. */
  lemma BorderHalf(n: nat, bf: real)
    requires 0.0 <= bf <= 0.5
    ensures 2 * Border(n, bf) <= n
  {
    var nr := n as real;
    var x := nr * bf - 0.5;
    RealProductNonneg(nr, 0.5 - bf);
    assert nr * 0.5 - nr * bf == nr * (0.5 - bf);
    var m := Border(n, bf);
    assert m == Trunc(x);
    if x >= 0.0 {
      assert m == x.Floor && m as real <= x;
      assert 2.0 * (m as real) <= nr - 1.0;
    } else {
      assert m == 0;
    }
  }

  lemma RealProductNonneg(a: real, b: real)
    requires a >= 0.0 && b >= 0.0
    ensures a * b >= 0.0
  {
  }

  /** Both cube roots of the pooling are taken of non-negative values. */
  lemma PoolNonneg(M: Matrix<real>, w: nat, h: nat, bf: real, cubeRoot: real -> real)
    requires IsMatrix(M, w, h) && 0.0 <= bf <= 0.5 && RootNonneg(cubeRoot)
    ensures Pool(M, w, h, bf, cubeRoot) >= 0.0
  {
    BorderHalf(w, bf);
    BorderHalf(h, bf);
    var p := h - 2 * Border(h, bf);
    var q := w - 2 * Border(w, bf);
    MulMono(0, p, q);
    assert (p * q) as real / 32.0 >= 0.0;
    assert cubeRoot(CubeSum(M, w, h, bf)) >= 0.0;
    assert cubeRoot((p * q) as real / 32.0) >= 0.0;
  }

  lemma PoolDetailNonneg(D: Detail, w: nat, h: nat, c: AdmConsts)
    requires IsDetail(D, w, h) && ValidConsts(c) && c.borderFactor <= 0.5 && RootNonneg(c.cubeRoot)
    ensures PoolDetail(D, w, h, c) >= 0.0
  {
    PoolNonneg(D.h, w, h, c.borderFactor, c.cubeRoot);
    PoolNonneg(D.v, w, h, c.borderFactor, c.cubeRoot);
    PoolNonneg(D.d, w, h, c.borderFactor, c.cubeRoot);
  }

  /** Each level's numerator and denominator is a sum of pooled values. */
  lemma AdmLevelNonneg(R: Matrix<real>, D: Matrix<real>, w: nat, h: nat, c: AdmConsts, scale: nat)
    requires ValidConsts(c) && scale < 4 && IsMatrix(R, w, h) && IsMatrix(D, w, h) && w >= 2 && h >= 2
    requires c.borderFactor <= 0.5 && RootNonneg(c.cubeRoot)
    ensures AdmLevel(R, D, w, h, c, scale).num >= 0.0 && AdmLevel(R, D, w, h, c, scale).den >= 0.0
  {
    var w2, h2 := Half(w), Half(h);
    var qr, qd := Dwt2(R, w, h, c.lo, c.hi), Dwt2(D, w, h, c.lo, c.hi);
    var co := Csf(qr.det, w2, h2, c.factor1[scale], c.factor2[scale]);
    var cr := Csf(DecoupleR(qr.det, qd.det, w2, h2), w2, h2, c.factor1[scale], c.factor2[scale]);
    var ca := Csf(DecoupleA(qr.det, qd.det, w2, h2), w2, h2, c.factor1[scale], c.factor2[scale]);
    var cm := Cm(cr, Thresh(ca, w2, h2), w2, h2);
    PoolDetailNonneg(cm, w2, h2, c);
    PoolDetailNonneg(co, w2, h2, c);
  }

  lemma {:induction false} LevelsFromNonneg(R: Matrix<real>, D: Matrix<real>, w: nat, h: nat, c: AdmConsts, k: nat)
    requires ValidConsts(c) && IsMatrix(R, w, h) && IsMatrix(D, w, h) && k <= 4
    requires LevelsFitFrom(w, k) && LevelsFitFrom(h, k)
    requires c.borderFactor <= 0.5 && RootNonneg(c.cubeRoot)
    ensures forall i :: 0 <= i < 4 - k ==> LevelsFrom(R, D, w, h, c, k)[i].0 >= 0.0 && LevelsFrom(R, D, w, h, c, k)[i].1 >= 0.0
    decreases 4 - k
  {
    if k < 4 {
      var a, b := Dwt2(R, w, h, c.lo, c.hi).a, Dwt2(D, w, h, c.lo, c.hi).a;
      AdmLevelNonneg(R, D, w, h, c, k);
      LevelsFromNonneg(a, b, Half(w), Half(h), c, k + 1);
      assert LevelsFrom(R, D, w, h, c, k)[1..] == LevelsFrom(a, b, Half(w), Half(h), c, k + 1);
    }
  }

  /** Over levels whose numerators and denominators are non-negative, the
      breakdown, both floored totals and the score are non-negative. */
  lemma SummariseNonneg(ls: seq<(real, real)>, w: nat, h: nat)
    requires |ls| == 4 && forall k :: 0 <= k < 4 ==> ls[k].0 >= 0.0 && ls[k].1 >= 0.0
    ensures var r := Summarise(ls, w, h);
      && (forall k :: 0 <= k < 8 ==> r.scores[k] >= 0.0)
      && r.num >= 0.0 && r.den >= 0.0 && r.score >= 0.0
  {
    var r := Summarise(ls, w, h);
    forall k | 0 <= k < 8
      ensures r.scores[k] >= 0.0
    {
      assert k == 2 * (k / 2) + k % 2;
    }
    TotalOfFour(ls);
    if r.den != 0.0 {
      QuotientNonneg(r.num, r.den);
    }
  }

  /** The numerator and denominator of every level, both floored totals and
      the score are non-negative, whatever the two pictures. */
  lemma AdmScoreNonneg(R: Matrix<real>, D: Matrix<real>, w: nat, h: nat, c: AdmConsts)
    requires ValidConsts(c) && IsMatrix(R, w, h) && IsMatrix(D, w, h) && w >= 9 && h >= 9
    requires c.borderFactor <= 0.5 && RootNonneg(c.cubeRoot)
    ensures var r := AdmScore(R, D, w, h, c);
      && (forall k :: 0 <= k < 8 ==> r.scores[k] >= 0.0)
      && r.num >= 0.0 && r.den >= 0.0 && r.score >= 0.0
  {
    var ls := AdmLevels(R, D, w, h, c);
    FourLevelsFitIff(w);
    FourLevelsFitIff(h);
    LevelsFromNonneg(R, D, w, h, c, 0);
    SummariseNonneg(ls, w, h);
  }

  lemma QuotientNonneg(x: real, y: real)
    requires x >= 0.0 && y > 0.0
    ensures x / y >= 0.0
  {
  }

  // ---------------------------------------------------------------------
  // Identity: a picture scored against itself
  // ---------------------------------------------------------------------

  function Zeros(w: nat, h: nat): (Z: Matrix<real>)
    ensures IsMatrix(Z, w, h) && forall i, j :: 0 <= i < h && 0 <= j < w ==> Z[i][j] == 0.0
  {
    seq(h, i => seq(w, j => 0.0))
  }

  lemma DecoupleIdentical(Q: Detail, w: nat, h: nat)
    requires IsDetail(Q, w, h)
    ensures DecoupleR(Q, Q, w, h) == Q
    ensures DecoupleA(Q, Q, w, h) == ZeroDetail(w, h)
  {
    var R, A := DecoupleR(Q, Q, w, h), DecoupleA(Q, Q, w, h);
    forall i, j | 0 <= i < h && 0 <= j < w
      ensures R.h[i][j] == Q.h[i][j] && R.v[i][j] == Q.v[i][j] && R.d[i][j] == Q.d[i][j]
      ensures A.h[i][j] == 0.0 && A.v[i][j] == 0.0 && A.d[i][j] == 0.0
    {
    }
    assert forall i | 0 <= i < h :: R.h[i] == Q.h[i] && R.v[i] == Q.v[i] && R.d[i] == Q.d[i];
    var Z := Zeros(w, h);
    assert forall i | 0 <= i < h :: A.h[i] == Z[i] && A.v[i] == Z[i] && A.d[i] == Z[i];
  }

  function ZeroDetail(w: nat, h: nat): (Z: Detail)
    ensures IsDetail(Z, w, h)
  {
    Detail(Zeros(w, h), Zeros(w, h), Zeros(w, h))
  }

  lemma {:induction false} MaskRowZero(w: nat, h: nat, i: int, j: int, fi: int, n: nat)
    requires 0 <= i < h && 0 <= j < w && 0 <= fi < 3 && n <= 3
    ensures MaskRow(Zeros(w, h), w, h, i, j, fi, n) == 0.0
  {
    if n > 0 {
      MaskRowZero(w, h, i, j, fi, n - 1);
    }
  }

  lemma {:induction false} ThreshPartialZero(w: nat, h: nat, i: int, j: int, t: nat)
    requires 0 <= i < h && 0 <= j < w && t <= 3
    ensures ThreshPartial(ZeroDetail(w, h), w, h, i, j, t) == 0.0
  {
    if t > 0 {
      var Z := Zeros(w, h);
      ThreshPartialZero(w, h, i, j, t - 1);
      MaskRowZero(w, h, i, j, 0, 3);
      MaskRowZero(w, h, i, j, 1, 3);
      MaskRowZero(w, h, i, j, 2, 3);
      assert MaskSum(Z, w, h, i, j, 1) == 0.0;
      assert MaskSum(Z, w, h, i, j, 2) == 0.0;
      assert Orient(ZeroDetail(w, h), t - 1) == Z;
    }
  }

  /** A zero impairment sets every masking threshold to zero. */
  lemma ThreshOfZeros(w: nat, h: nat)
    ensures Thresh(ZeroDetail(w, h), w, h) == Zeros(w, h)
  {
    var T, Z := Thresh(ZeroDetail(w, h), w, h), Zeros(w, h);
    forall i, j | 0 <= i < h && 0 <= j < w
      ensures T[i][j] == 0.0
    {
      ThreshPartialZero(w, h, i, j, 3);
    }
    assert forall i | 0 <= i < h :: T[i] == Z[i];
  }

  lemma CsfOfZeros(w: nat, h: nat, f1: real, f2: real)
    requires f1 > 0.0 && f2 > 0.0
    ensures Csf(ZeroDetail(w, h), w, h, f1, f2) == ZeroDetail(w, h)
  {
    var Z := Zeros(w, h);
    var C := Csf(ZeroDetail(w, h), w, h, f1, f2);
    assert forall i | 0 <= i < h :: C.h[i] == Z[i] && C.v[i] == Z[i] && C.d[i] == Z[i];
  }

  /** With a zero threshold masking keeps every magnitude, so pooling is unchanged. */
  lemma UnmaskedPool(C: Detail, w: nat, h: nat, c: AdmConsts)
    requires IsDetail(C, w, h) && ValidConsts(c)
    ensures PoolDetail(Cm(C, Zeros(w, h), w, h), w, h, c) == PoolDetail(C, w, h, c)
  {
    var M := Cm(C, Zeros(w, h), w, h);
    PoolAbs(M.h, C.h, w, h, c.borderFactor, c.cubeRoot);
    PoolAbs(M.v, C.v, w, h, c.borderFactor, c.cubeRoot);
    PoolAbs(M.d, C.d, w, h, c.borderFactor, c.cubeRoot);
  }

  lemma SelfRatio(x: real, y: real)
    requires x == y && y != 0.0
    ensures x / y == 1.0
  {
  }

  /** Levels whose numerators equal their denominators give equal totals
      and a score of 1.0. */
  lemma BalancedScoresOne(ls: seq<(real, real)>, w: nat, h: nat)
    requires |ls| == 4 && forall k :: 0 <= k < 4 ==> ls[k].0 == ls[k].1
    ensures Summarise(ls, w, h).score == 1.0
    ensures Summarise(ls, w, h).num == Summarise(ls, w, h).den
  {
    TotalOfFour(ls);
    var r := Summarise(ls, w, h);
    assert r.num == r.den;
    if r.den != 0.0 {
      SelfRatio(r.num, r.den);
    }
  }

  /** Scored against itself, every remaining level has its numerator equal
      to its denominator. */
  lemma {:induction false} LevelsFromIdentical(R: Matrix<real>, w: nat, h: nat, c: AdmConsts, k: nat)
    requires ValidConsts(c) && IsMatrix(R, w, h) && k <= 4 && LevelsFitFrom(w, k) && LevelsFitFrom(h, k)
    ensures forall i :: 0 <= i < 4 - k ==> LevelsFrom(R, R, w, h, c, k)[i].0 == LevelsFrom(R, R, w, h, c, k)[i].1
    decreases 4 - k
  {
    if k < 4 {
      var a := Dwt2(R, w, h, c.lo, c.hi).a;
      LevelsFromIdentical(a, Half(w), Half(h), c, k + 1);
      assert LevelsFrom(R, R, w, h, c, k)[1..] == LevelsFrom(a, a, Half(w), Half(h), c, k + 1);
    }
  }
}
