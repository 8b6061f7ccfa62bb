/** vf_ansnr.c as it runs: the mirror-bounded convolution written into the
    float work buffer, the signal and noise sums over two filtered planes,
    compute_ansnr's carving of the work buffer and its two scores, and
    do_ansnr's per-frame bookkeeping. Each routine is proved against the
    reference definitions of AnsnrModel. */
module Ansnr {
  import opened Layout
  import opened AnsnrModel

  // ---------------------------------------------------------------------
  // ansnr_filter2d
  // ---------------------------------------------------------------------

  /** The fj loop: accum_inner, kernel row fi of f against the mirrored,
      offset samples it covers around (i, j). */
  method KernelRowSum(f: seq<real>, fw: nat, src: array<int>, sp: Plane, w: nat, h: nat, i: int, j: int, fi: int,
                      ghost S: Matrix<int>)
    returns (accumInner: real)
    requires |f| == fw * fw && w > fw / 2 && h > fw / 2 && 0 <= fi < fw
    requires IsMatrix(S, w, h) && Holds(src[..], sp, S) && 0 <= i < h && 0 <= j < w
    ensures accumInner == Dot(KernelOf(f, fw)[fi], Window(S, fw, w, h, i, j, fi), fw)
  {
    ghost var a := KernelOf(f, fw)[fi];
    ghost var b := Window(S, fw, w, h, i, j, fi);
    RowIndex(fw, fi);
    accumInner := 0.0;
    var fj := 0;
    while fj < fw
      invariant 0 <= fj <= fw
      invariant accumInner == Dot(a, b, fj)
    {
      var fcoeff := f[fi * fw + fj];
      var ii := i - fw / 2 + fi;
      var jj := j - fw / 2 + fj;
      if ii < 0 {
        ii := -ii;
      } else if ii >= h {
        ii := 2 * h - ii - 1;
      }
      if jj < 0 {
        jj := -jj;
      } else if jj >= w {
        jj := 2 * w - jj - 1;
      }
      ReflectOnceInBounds(i, h, fw, fi);
      ReflectOnceInBounds(j, w, fw, fj);
      assert ii == ReflectOnce(KernelTap(i, fw, fi), h) && jj == ReflectOnce(KernelTap(j, fw, fj), w);
      HeldAt(src[..], sp, S, ii, jj);
      var imgcoeff := (src[At(sp, ii, jj)] + PixelOffset) as real;
      assert b[fj] == imgcoeff;
      DotStep(a, b, fj, fcoeff, imgcoeff);
      accumInner := accumInner + fcoeff * imgcoeff;
      fj := fj + 1;
    }
  }

  /** The fi loop: accum, the kernel rows' sums added in row order, which is
      the filtered value of cell (i, j). */
  method FilterCell(f: seq<real>, fw: nat, src: array<int>, sp: Plane, w: nat, h: nat, i: int, j: int,
                    ghost S: Matrix<int>)
    returns (accum: real)
    requires |f| == fw * fw && fw >= 1 && w > fw / 2 && h > fw / 2
    requires IsMatrix(S, w, h) && Holds(src[..], sp, S) && 0 <= i < h && 0 <= j < w
    ensures accum == Filter2d(KernelOf(f, fw), S, w, h)[i][j]
  {
    ghost var K := KernelOf(f, fw);
    accum := 0.0;
    var fi := 0;
    while fi < fw
      invariant 0 <= fi <= fw
      invariant accum == Cell(K, S, w, h, i, j, fi)
    {
      var accumInner := KernelRowSum(f, fw, src, sp, w, h, i, j, fi, S);
      accum := accum + accumInner;
      fi := fi + 1;
    }
  }

  /** The j loop for row i: every cell of the row stored at its place in
      dp; nothing outside that row's window changes. */
  method FilterRow(f: seq<real>, fw: nat, src: array<int>, sp: Plane, dst: array<real>, dp: Plane,
                   w: nat, h: nat, i: int, ghost S: Matrix<int>)
    requires |f| == fw * fw && fw >= 1 && w > fw / 2 && h > fw / 2
    requires IsMatrix(S, w, h) && Holds(src[..], sp, S) && Fits(dp, w, h, dst.Length) && 0 <= i < h
    requires DoneUpTo(dst[..], dp, Filter2d(KernelOf(f, fw), S, w, h), i, 0)
    modifies dst
    ensures DoneUpTo(dst[..], dp, Filter2d(KernelOf(f, fw), S, w, h), i + 1, 0)
    ensures forall k :: 0 <= k < dst.Length && !InRow(k, dp, i, w) ==> dst[k] == old(dst[k])
  {
    ghost var M := Filter2d(KernelOf(f, fw), S, w, h);
    var j := 0;
    while j < w
      invariant 0 <= j <= w
      invariant DoneUpTo(dst[..], dp, M, i, j)
      invariant forall k :: 0 <= k < dst.Length && !InRow(k, dp, i, w) ==> dst[k] == old(dst[k])
    {
      var accum := FilterCell(f, fw, src, sp, w, h, i, j, S);
      AtInExtent(dp, w, h, i, j);
      ghost var s := dst[..];
      DoneStep(s, dp, M, w, h, i, j);
      dst[At(dp, i, j)] := accum;
      assert dst[..] == s[At(dp, i, j) := M[i][j]];
      j := j + 1;
    }
    DoneRow(dst[..], dp, M, w, h, i);
  }

  /** ansnr_filter2d: every cell (i, j) of the w x h destination window,
      src_px_stride and dst_px_stride samples per row, receives the sum of
      the fw x fw kernel f against the mirrored source samples centred on
      (i, j), each offset by -128; no other sample of dst changes. The
      source stride is taken in samples of sampleBytes bytes. */
  method AnsnrFilter2d(f: seq<real>, fw: nat, src: array<int>, dst: array<real>, dstOff: nat,
                       w: nat, h: nat, srcStride: nat, dstStride: nat, sampleBytes: nat,
                       ghost S: Matrix<int>)
    requires |f| == fw * fw && fw >= 1 && w > fw / 2 && h > fw / 2 && sampleBytes >= 1
    requires IsMatrix(S, w, h) && Holds(src[..], Plane(0, SrcPxStride(srcStride, sampleBytes)), S)
    requires Fits(Plane(dstOff, dstStride / 4), w, h, dst.Length)
    modifies dst
    ensures Holds(dst[..], Plane(dstOff, dstStride / 4), Filter2d(KernelOf(f, fw), S, w, h))
    ensures forall k :: 0 <= k < dst.Length && !InWindow(k, Plane(dstOff, dstStride / 4), w, h) ==> dst[k] == old(dst[k])
  {
    var srcPxStride := SrcPxStride(srcStride, sampleBytes);
    var dstPxStride := dstStride / 4;
    var sp, dp := Plane(0, srcPxStride), Plane(dstOff, dstPxStride);
    ghost var M := Filter2d(KernelOf(f, fw), S, w, h);
    var i := 0;
    while i < h
      invariant 0 <= i <= h
      invariant DoneUpTo(dst[..], dp, M, i, 0)
      invariant forall k :: 0 <= k < dst.Length && !InWindow(k, dp, w, h) ==> dst[k] == old(dst[k])
    {
      FilterRow(f, fw, src, sp, dst, dp, w, h, i, S);
      assert forall k :: InRow(k, dp, i, w) ==> InWindow(k, dp, w, h);
      i := i + 1;
    }
    assert Holds(dst[..], dp, M);
  }

  // ---------------------------------------------------------------------
  // ansnr_mse
  // ---------------------------------------------------------------------

  /** ansnr_mse: over the w x h windows of the reference and distorted
      planes (strides in bytes, four per sample), signal_sum adds the
      squared reference samples and noise_sum the squared differences, row
      by row; each sum is delivered only when its output is requested. */
  method AnsnrMse(ref: array<real>, refOff: nat, dis: array<real>, disOff: nat, wantSignal: bool, wantNoise: bool,
                  w: nat, h: nat, refStride: nat, disStride: nat, ghost R: Matrix<real>, ghost D: Matrix<real>)
    returns (signal: Option<real>, noise: Option<real>)
    requires IsMatrix(R, w, h) && IsMatrix(D, w, h)
    requires Holds(ref[..], Plane(refOff, refStride / 4), R) && Holds(dis[..], Plane(disOff, disStride / 4), D)
    ensures signal == (if wantSignal then Some(Signal(R, w, h, h)) else None)
    ensures noise == (if wantNoise then Some(Noise(R, D, w, h, h)) else None)
  {
    var rp, dp := Plane(refOff, refStride / 4), Plane(disOff, disStride / 4);
    var signalSum := 0.0;
    var noiseSum := 0.0;
    var i := 0;
    while i < h
      invariant 0 <= i <= h
      invariant signalSum == Signal(R, w, h, i) && noiseSum == Noise(R, D, w, h, i)
    {
      ghost var signal0, noise0 := signalSum, noiseSum;
      var j := 0;
      while j < w
        invariant 0 <= j <= w
        invariant signalSum == signal0 + RowSignal(R[i], j)
        invariant noiseSum == noise0 + RowNoise(R[i], D[i], j)
      {
        HeldAt(ref[..], rp, R, i, j);
        HeldAt(dis[..], dp, D, i, j);
        var refInd := At(rp, i, j);
        var disInd := At(dp, i, j);
        signalSum := signalSum + Sq(ref[refInd]);
        noiseSum := noiseSum + Sq(ref[refInd] - dis[disInd]);
        j := j + 1;
      }
      i := i + 1;
    }
    signal := if wantSignal then Some(signalSum) else None;
    noise := if wantNoise then Some(noiseSum) else None;
  }

  // ---------------------------------------------------------------------
  // compute_ansnr and its work buffer
  // ---------------------------------------------------------------------

  /** buf_stride: a filtered row in bytes, four per float, padded to MAX_ALIGN. */
  function BufStride(w: nat): (r: nat)
    ensures IsAligned(r) && w * 4 <= r < w * 4 + MaxAlign
  {
    AlignCeil(w * 4)
  }

  /** buf_stride in floats: at least w, and exactly a quarter of buf_stride. */
  function PxStride(w: nat): (s: nat)
    ensures w <= s && 4 * s == BufStride(w)
  {
    AlignCeilIsLeastMultiple(w * 4);
    BufStride(w) / 4
  }

  /** h rows of an aligned stride of at least 4 w bytes are aligned and
      hold 4 w h bytes. */
  lemma AlignedRows(s: nat, w: nat, h: nat)
    requires IsAligned(s) && 4 * w <= s
    ensures IsAligned(s * h) && 4 * (w * h) <= s * h
  {
    var q := s / MaxAlign;
    assert s * h == MaxAlign * (q * h);
    assert s * h - 4 * (w * h) == (s - 4 * w) * h;
  }

  /** buf_sz_one: one filtered plane of h rows, in bytes. */
  function BufSzOne(w: nat, h: nat): (r: nat)
    ensures IsAligned(r) && 4 * (w * h) <= r
  {
    AlignedRows(BufStride(w), w, h);
    BufStride(w) * h
  }

  /** data_buf as config_input_ref allocates it, counted in floats: three
      planes of buf_sz_one bytes. */
  function AnsnrBufSamples(w: nat, h: nat): (r: nat)
    ensures 4 * r == 3 * BufSzOne(w, h)
    ensures 3 * (w * h) <= r
  {
    var b := BufSzOne(w, h);
    var q := b / MaxAlign;
    assert b == MaxAlign * q;
    assert 3 * b / 4 == 24 * q;
    3 * b / 4
  }

  /** The planes compute_ansnr carves from data_buf, in floats, and the
      byte offset data_top reaches. */
  datatype Arena = Arena(refFiltr: Plane, disFiltd: Plane, end: nat)

  /** compute_ansnr's carving: data_top advances buf_sz_one bytes past each
      of ref_filtr and dis_filtd, so the two planes are consecutive regions
      of buf_sz_one bytes, the first at the start of data_buf. */
  function AnsnrArena(w: nat, h: nat): (ar: Arena)
    ensures var px := PxStride(w);
      && ar.refFiltr == Plane(0, px) && ar.disFiltd == Plane(px * h, px)
      && ar.end == 2 * BufSzOne(w, h)
  {
    assert BufSzOne(w, h) == 4 * (PxStride(w) * h);
    var dataTop := 0;
    var refFiltr := Plane(dataTop / 4, BufStride(w) / 4);
    var dataTop := dataTop + BufSzOne(w, h);
    var disFiltd := Plane(dataTop / 4, BufStride(w) / 4);
    var dataTop := dataTop + BufSzOne(w, h);
    Arena(refFiltr, disFiltd, dataTop)
  }

  /** The two filtered planes are row-aligned: both start on a MAX_ALIGN
      boundary, neither overlaps the other, both fit the w x h window, and
      together they use two of the three regions data_buf holds. */
  lemma AnsnrArenaLayout(w: nat, h: nat)
    ensures var ar := AnsnrArena(w, h);
      && IsAligned(4 * ar.refFiltr.off) && IsAligned(4 * ar.disFiltd.off)
      && ar.end <= 3 * BufSzOne(w, h)
      && Apart(ar.refFiltr, ar.disFiltd, h)
      && Fits(ar.refFiltr, w, h, AnsnrBufSamples(w, h)) && Fits(ar.disFiltd, w, h, AnsnrBufSamples(w, h))
  {
    var px := PxStride(w);
    var q := BufStride(w) / MaxAlign;
    assert BufSzOne(w, h) == 4 * (px * h);
    assert 4 * (px * h) == MaxAlign * (q * h);
    assert AnsnrBufSamples(w, h) == 3 * (px * h);
  }

  /** The two filtering passes of compute_ansnr: the reference through the
      3x3 kernel into ref_filtr, then the distorted image through the 5x5
      kernel into dis_filtd, which leaves ref_filtr as it was. */
  method FilterPlanes(ref: array<int>, dis: array<int>, w: nat, h: nat, refStride: nat, disStride: nat,
                      sampleBytes: nat, dataBuf: array<real>, ghost S: Matrix<int>, ghost T: Matrix<int>)
    requires w >= 3 && h >= 3 && sampleBytes >= 1 && IsMatrix(S, w, h) && IsMatrix(T, w, h)
    requires Holds(ref[..], Plane(0, SrcPxStride(refStride, sampleBytes)), S)
    requires Holds(dis[..], Plane(0, SrcPxStride(disStride, sampleBytes)), T)
    requires dataBuf.Length >= AnsnrBufSamples(w, h)
    modifies dataBuf
    ensures Holds(dataBuf[..], AnsnrArena(w, h).refFiltr, Filter2d(KernelOf(RefFilter, RefWidth), S, w, h))
    ensures Holds(dataBuf[..], AnsnrArena(w, h).disFiltd, Filter2d(KernelOf(DisFilter, DisWidth), T, w, h))
    ensures var ar := AnsnrArena(w, h);
      forall k :: 0 <= k < dataBuf.Length && !InWindow(k, ar.refFiltr, w, h) && !InWindow(k, ar.disFiltd, w, h) ==>
        dataBuf[k] == old(dataBuf[k])
  {
    var bufStride := BufStride(w);
    var ar := AnsnrArena(w, h);
    AnsnrArenaLayout(w, h);
    assert bufStride / 4 == PxStride(w);
    AnsnrFilter2d(RefFilter, RefWidth, ref, dataBuf, ar.refFiltr.off, w, h, refStride, bufStride, sampleBytes, S);
    ghost var afterRef := dataBuf[..];
    AnsnrFilter2d(DisFilter, DisWidth, dis, dataBuf, ar.disFiltd.off, w, h, disStride, bufStride, sampleBytes, T);
    WindowInExtent(ar.disFiltd, w, h);
    HoldsApart(afterRef, dataBuf[..], ar.refFiltr, ar.disFiltd, Filter2d(KernelOf(RefFilter, RefWidth), S, w, h), w, h);
  }

  /** compute_ansnr: the reference filtered by the 3x3 kernel into
      ref_filtr, the distorted image by the 5x5 kernel into dis_filtd,
      signal and noise over the two, and the two scores from them; the
      call always returns 0. */
  method ComputeAnsnr(ref: array<int>, dis: array<int>, w: nat, h: nat, refStride: nat, disStride: nat,
                      sampleBytes: nat, peak: real, psnrMax: real, log10: real -> real, dataBuf: array<real>,
                      ghost S: Matrix<int>, ghost T: Matrix<int>)
    returns (score: real, scorePsnr: real, ret: int)
    requires w >= 3 && h >= 3 && sampleBytes >= 1 && IsMatrix(S, w, h) && IsMatrix(T, w, h)
    requires Holds(ref[..], Plane(0, SrcPxStride(refStride, sampleBytes)), S)
    requires Holds(dis[..], Plane(0, SrcPxStride(disStride, sampleBytes)), T)
    requires dataBuf.Length >= AnsnrBufSamples(w, h)
    modifies dataBuf
    ensures Scores(score, scorePsnr) == AnsnrOf(S, T, w, h, peak, psnrMax, log10)
    ensures scorePsnr <= psnrMax
    ensures ret == 0
    ensures var ar := AnsnrArena(w, h);
      forall k :: 0 <= k < dataBuf.Length && !InWindow(k, ar.refFiltr, w, h) && !InWindow(k, ar.disFiltd, w, h) ==>
        dataBuf[k] == old(dataBuf[k])
  {
    var bufStride := BufStride(w);
    var ar := AnsnrArena(w, h);
    ghost var FR := Filter2d(KernelOf(RefFilter, RefWidth), S, w, h);
    ghost var FD := Filter2d(KernelOf(DisFilter, DisWidth), T, w, h);
    FilterPlanes(ref, dis, w, h, refStride, disStride, sampleBytes, dataBuf, S, T);
    assert bufStride / 4 == PxStride(w);
    var signal, noise := AnsnrMse(dataBuf, ar.refFiltr.off, dataBuf, ar.disFiltd.off, true, true, w, h,
                                  bufStride, bufStride, FR, FD);
    var signalValue, noiseValue := signal.value, noise.value;
    score := AnsnrScore(signalValue, noiseValue, psnrMax, log10);
    scorePsnr := PsnrScore(peak, w, h, noiseValue, psnrMax, log10);
    ret := 0;
    AnsnrOfSums(S, T, w, h, peak, psnrMax, log10, FR, FD, signalValue, noiseValue);
  }

  // ---------------------------------------------------------------------
  // do_ansnr: the filter's per-frame state
  // ---------------------------------------------------------------------

  /** The part of ANSNRContext the frame callback reads and updates. */
  class AnsnrContext {
    var width: nat
    var height: nat
    var format: string
    var dataBuf: array<real>
    var ansnrSum: real
    var nbFrames: nat

    ghost predicate Valid()
      reads this
    {
      dataBuf.Length >= AnsnrBufSamples(width, height)
    }

    /** The context as config_input_ref leaves it: the link's dimensions
        and format name, and a work buffer of three filtered planes. */
    constructor (w: nat, h: nat, fmt: string)
      ensures Valid() && fresh(dataBuf)
      ensures width == w && height == h && format == fmt
      ensures dataBuf.Length == AnsnrBufSamples(w, h)
      ensures ansnrSum == 0.0 && nbFrames == 0
    {
      width, height, format := w, h, fmt;
      dataBuf := new real[AnsnrBufSamples(w, h)];
      ansnrSum, nbFrames := 0.0, 0;
    }

    /** do_ansnr: picks the peak, the PSNR cap and the sample width from the
        format name, scores the reference against the main frame, both laid
        out with rows of ALIGN_CEIL(width * sample width) bytes, counts the
        frame and adds its score to the running sum. */
    method DoAnsnr(main: array<int>, ref: array<int>, log10: real -> real,
                   ghost S: Matrix<int>, ghost T: Matrix<int>)
      returns (score: real, scorePsnr: real)
      requires Valid() && PeakAndCap(format).Some?
      requires width >= 3 && height >= 3 && IsMatrix(S, width, height) && IsMatrix(T, width, height)
      requires var sel := PeakAndCap(format).value;
        var p := Plane(0, SrcPxStride(AlignCeil(width * sel.sampleBytes), sel.sampleBytes));
        Holds(ref[..], p, S) && Holds(main[..], p, T)
      modifies this, dataBuf
      ensures width == old(width) && height == old(height) && format == old(format) && dataBuf == old(dataBuf)
      ensures var sel := PeakAndCap(format).value;
        Scores(score, scorePsnr) == AnsnrOf(S, T, width, height, sel.peak, sel.maxPsnr, log10)
      ensures nbFrames == old(nbFrames) + 1 && ansnrSum == old(ansnrSum) + score
      ensures Valid()
    {
      var sel := PeakAndCap(format).value;
      var peak, maxPsnr, sz := sel.peak, sel.maxPsnr, sel.sampleBytes;
      var w, h := width, height;
      var stride := AlignCeil(w * sz);
      var ret;
      score, scorePsnr, ret := ComputeAnsnr(ref, main, w, h, stride, stride, sz, peak, maxPsnr, log10, dataBuf, S, T);
      nbFrames := nbFrames + 1;
      ansnrSum := ansnrSum + score;
    }
  }
}
