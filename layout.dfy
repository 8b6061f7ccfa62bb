/** Index arithmetic shared by the ADM and ANSNR kernels: stride alignment,
    ceil-halving of dimensions, strided plane views into flat buffers, and the
    two mirror-reflection rules used at image borders. */
module Layout {

  /** MAX_ALIGN: every row stride is rounded up to this many bytes. */
  const MaxAlign: nat := 32

  predicate IsAligned(m: nat) { m % MaxAlign == 0 }

  /** ALIGN_CEIL(x): pads x up to the next multiple of MaxAlign. */
  function AlignCeil(x: nat): (r: nat)
    ensures IsAligned(r) && x <= r < x + MaxAlign
  {
    x + (if x % MaxAlign != 0 then MaxAlign - x % MaxAlign else 0)
  }

  /** No multiple of 32 between x and ALIGN_CEIL(x) is smaller: it is the least one. */
  lemma AlignCeilIsLeastMultiple(x: nat)
    ensures forall m: nat {:trigger IsAligned(m)} :: IsAligned(m) && x <= m ==> AlignCeil(x) <= m
  {
    var q, r := x / MaxAlign, x % MaxAlign;
    assert x == q * MaxAlign + r;
    forall m: nat | IsAligned(m) && x <= m
      ensures AlignCeil(x) <= m
    {
      var qm := m / MaxAlign;
      assert m == qm * MaxAlign;
      if r != 0 {
        assert AlignCeil(x) == (q + 1) * MaxAlign;
        assert qm * MaxAlign > q * MaxAlign;
        assert qm > q;
      }
    }
  }

  /** Ceil-halving of a dimension, (n + 1) / 2 in C. */
  function Half(n: nat): (r: nat)
    ensures n <= 2 * r <= n + 1
  {
    (n + 1) / 2
  }

  /** Halving keeps order: a smaller extent never has a larger half. */
  lemma HalfMono(m: nat, n: nat)
    requires m <= n
    ensures Half(m) <= Half(n)
  {
  }

  /** Levels k .. 3 of a pyramid whose level-k extent is n can each be
      decomposed: every one of them is at least 2 samples wide, the least
      the two-tap decimation reads. */
  predicate LevelsFitFrom(n: nat, k: nat)
    decreases 4 - k
  {
    k >= 4 || (n >= 2 && LevelsFitFrom(Half(n), k + 1))
  }

  /** Four decimating levels fit exactly when the original extent is at
      least 9 (9 -> 5 -> 3 -> 2, while 8 -> 4 -> 2 -> 1). */
  lemma FourLevelsFitIff(n: nat)
    ensures LevelsFitFrom(n, 0) <==> n >= 9
  {
    assert LevelsFitFrom(n, 0) == (n >= 2 && LevelsFitFrom(Half(n), 1));
    assert LevelsFitFrom(Half(n), 1) == (Half(n) >= 2 && LevelsFitFrom(Half(Half(n)), 2));
    assert LevelsFitFrom(Half(Half(n)), 2) == (Half(Half(n)) >= 2 && LevelsFitFrom(Half(Half(Half(n))), 3));
    assert LevelsFitFrom(Half(Half(Half(n))), 3) == (Half(Half(Half(n))) >= 2);
  }

  /** A plane inside a flat buffer: its first sample and its row stride,
      both counted in samples. */
  datatype Plane = Plane(off: nat, stride: nat)

  function RowStart(p: Plane, i: int): int
  {
    p.off + i * p.stride
  }

  /** Buffer index of sample (i, j): `i * px_stride + j` from the plane's base. */
  function At(p: Plane, i: int, j: int): int
  {
    RowStart(p, i) + j
  }

  /** Index k lies in the extent of p: its first h rows, padding included. */
  predicate InExtent(k: int, p: Plane, h: int)
  {
    p.off <= k < p.off + h * p.stride
  }

  /** The w x h window of p (w no wider than the stride) fits in a buffer of length len. */
  predicate Fits(p: Plane, w: int, h: int, len: int)
  {
    0 <= w <= p.stride && 0 <= h && p.off + h * p.stride <= len
  }

  /** The hp-row extent of p and the hq-row extent of q do not overlap. */
  predicate Disjoint(p: Plane, hp: int, q: Plane, hq: int)
  {
    p.off + hp * p.stride <= q.off || q.off + hq * q.stride <= p.off
  }

  /** The h-row extents of p and q do not overlap. */
  predicate Apart(p: Plane, q: Plane, h: int)
  {
    p.off + h * p.stride <= q.off || q.off + h * q.stride <= p.off
  }

  lemma MulMono(a: int, b: int, s: nat)
    requires a <= b
    ensures a * s <= b * s
  {
    assert b * s - a * s == (b - a) * s;
  }

  /** Rows are laid out one stride apart: every row of the first h lies in the
      extent, and earlier rows end before later rows start. */
  lemma RowFacts(p: Plane, h: int)
    ensures forall i {:trigger RowStart(p, i)} :: 0 <= i < h ==>
      p.off <= RowStart(p, i) && RowStart(p, i) + p.stride <= p.off + h * p.stride
    ensures forall i1, i2 {:trigger RowStart(p, i1), RowStart(p, i2)} :: 0 <= i1 < i2 ==>
      RowStart(p, i1) + p.stride <= RowStart(p, i2)
  {
    forall i | 0 <= i < h
      ensures p.off <= RowStart(p, i) && RowStart(p, i) + p.stride <= p.off + h * p.stride
    {
      MulMono(0, i, p.stride);
      MulMono(i + 1, h, p.stride);
    }
    forall i1, i2 | 0 <= i1 < i2
      ensures RowStart(p, i1) + p.stride <= RowStart(p, i2)
    {
      MulMono(i1 + 1, i2, p.stride);
    }
  }

  type Matrix<T> = seq<seq<T>>

  predicate IsMatrix<T>(M: Matrix<T>, w: int, h: int)
  {
    |M| == h && forall i :: 0 <= i < h ==> |M[i]| == w
  }

  /** Every sample of the w x h window of p is a valid index of a buffer of length len. */
  predicate Readable(p: Plane, w: int, h: int, len: int)
  {
    forall i, j :: 0 <= i < h && 0 <= j < w ==> 0 <= At(p, i, j) < len
  }

  lemma FitsReadable(p: Plane, w: int, h: int, len: int)
    requires Fits(p, w, h, len)
    ensures Readable(p, w, h, len)
  {
    RowFacts(p, h);
  }

  /** The w x h window of p in s, as a matrix of rows. */
  ghost function PlaneOf<T>(s: seq<T>, p: Plane, w: nat, h: nat): (M: Matrix<T>)
    requires Readable(p, w, h, |s|)
    ensures IsMatrix(M, w, h)
    ensures forall i, j :: 0 <= i < h && 0 <= j < w ==> M[i][j] == s[At(p, i, j)]
  {
    seq(h, i requires 0 <= i < h => seq(w, j requires 0 <= j < w => s[At(p, i, j)]))
  }

  /** Buffer s holds matrix M in plane p. */
  ghost predicate Holds<T>(s: seq<T>, p: Plane, M: Matrix<T>)
  {
    forall i, j :: 0 <= i < |M| && 0 <= j < |M[i]| ==> 0 <= At(p, i, j) < |s| && s[At(p, i, j)] == M[i][j]
  }

  /** A held matrix's cell (i, j) is at At(p, i, j). */
  lemma HeldAt<T>(s: seq<T>, p: Plane, M: Matrix<T>, i: int, j: int)
    requires Holds(s, p, M) && 0 <= i < |M| && 0 <= j < |M[i]|
    ensures 0 <= At(p, i, j) < |s| && s[At(p, i, j)] == M[i][j]
  {
  }

  /** The cells of M before (i, j) in row-major order are already in plane p of s. */
  ghost predicate DoneUpTo<T>(s: seq<T>, p: Plane, M: Matrix<T>, i: int, j: int)
  {
    forall i', j' :: 0 <= i' < |M| && 0 <= j' < |M[i']| && (i' < i || (i' == i && j' < j)) ==>
      0 <= At(p, i', j') < |s| && s[At(p, i', j')] == M[i'][j']
  }

  /** Sample (i, j) of a fitting window lies in its plane's extent. */
  lemma AtInExtent(p: Plane, w: int, h: int, i: int, j: int)
    requires 0 <= i < h && 0 <= j < w <= p.stride
    ensures InExtent(At(p, i, j), p, h)
  {
    RowFacts(p, h);
  }

  /** Storing M[i][j] at (i, j) extends the row-major prefix by one cell. */
  lemma DoneStep<T>(s: seq<T>, p: Plane, M: Matrix<T>, w: nat, h: nat, i: int, j: int)
    requires IsMatrix(M, w, h) && w <= p.stride && 0 <= i < h && 0 <= j < w
    requires DoneUpTo(s, p, M, i, j) && 0 <= At(p, i, j) < |s|
    ensures DoneUpTo(s[At(p, i, j) := M[i][j]], p, M, i, j + 1)
  {
    RowFacts(p, h);
  }

  /** After a step that changed, inside p's extent, only the cell (i, j),
      which now holds M[i][j], the row-major prefix grows by one. */
  lemma DoneCell<T>(s0: seq<T>, s1: seq<T>, p: Plane, M: Matrix<T>, w: nat, h: nat, i: int, j: int)
    requires IsMatrix(M, w, h) && w <= p.stride && 0 <= i < h && 0 <= j < w && |s0| == |s1|
    requires DoneUpTo(s0, p, M, i, j) && 0 <= At(p, i, j) < |s1| && s1[At(p, i, j)] == M[i][j]
    requires forall k :: 0 <= k < |s0| && InExtent(k, p, h) && k != At(p, i, j) ==> s1[k] == s0[k]
    ensures DoneUpTo(s1, p, M, i, j + 1)
  {
    RowFacts(p, h);
  }

  /** A store outside p's extent keeps the prefix stored in p. */
  lemma DoneKept<T>(s: seq<T>, p: Plane, M: Matrix<T>, w: nat, h: nat, i: int, j: int, k: int, v: T)
    requires IsMatrix(M, w, h) && w <= p.stride && DoneUpTo(s, p, M, i, j)
    requires 0 <= k < |s| && !InExtent(k, p, h)
    ensures DoneUpTo(s[k := v], p, M, i, j)
  {
    RowFacts(p, h);
  }

  /** A finished row is the start of the next; all rows finished is Holds. */
  lemma DoneRow<T>(s: seq<T>, p: Plane, M: Matrix<T>, w: nat, h: nat, i: int)
    requires IsMatrix(M, w, h) && 0 <= i < h && DoneUpTo(s, p, M, i, w)
    ensures DoneUpTo(s, p, M, i + 1, 0)
    ensures i + 1 == h ==> Holds(s, p, M)
  {
  }

  lemma HoldsPlaneOf<T>(s: seq<T>, p: Plane, M: Matrix<T>, w: nat, h: nat)
    requires Holds(s, p, M) && IsMatrix(M, w, h)
    ensures Readable(p, w, h, |s|) && PlaneOf(s, p, w, h) == M
  {
    var P := PlaneOf(s, p, w, h);
    assert forall i | 0 <= i < h :: P[i] == M[i];
  }

  /** A buffer that changed only inside extents disjoint from p's still holds
      what p held. */
  lemma HoldsFrame<T>(s1: seq<T>, s2: seq<T>, p: Plane, M: Matrix<T>, w: nat, h: nat)
    requires Holds(s1, p, M) && IsMatrix(M, w, h) && w <= p.stride && |s1| == |s2|
    requires forall k :: InExtent(k, p, h) && 0 <= k < |s1| ==> s1[k] == s2[k]
    ensures Holds(s2, p, M)
  {
    RowFacts(p, h);
  }

  /** A buffer changed only inside the extent of q, which is apart from p,
      still holds what p held. */
  lemma HoldsApart<T>(s1: seq<T>, s2: seq<T>, p: Plane, q: Plane, M: Matrix<T>, w: nat, h: nat)
    requires Holds(s1, p, M) && IsMatrix(M, w, h) && w <= p.stride && |s1| == |s2| && Apart(p, q, h)
    requires forall k :: 0 <= k < |s1| && !InExtent(k, q, h) ==> s1[k] == s2[k]
    ensures Holds(s2, p, M)
  {
    HoldsFrame(s1, s2, p, M, w, h);
  }

  /** Index k lies among the first w samples of row i of p. */
  predicate InRow(k: int, p: Plane, i: int, w: int)
  {
    RowStart(p, i) <= k < RowStart(p, i) + w
  }

  /** Index k lies in the w x h window of p: it is one of the first w
      samples of some row i < h. The padding past w is not in the window. */
  predicate InWindow(k: int, p: Plane, w: int, h: int)
  {
    exists i :: 0 <= i < h && InRow(k, p, i, w)
  }

  /** The window lies in the plane's extent. */
  lemma WindowInExtent(p: Plane, w: int, h: int)
    requires 0 <= w <= p.stride
    ensures forall k :: InWindow(k, p, w, h) ==> InExtent(k, p, h)
  {
    forall k | InWindow(k, p, w, h)
      ensures InExtent(k, p, h)
    {
      var i :| 0 <= i < h && InRow(k, p, i, w);
      RowInExtent(p, w, h, i);
    }
  }

  /** Sample (i, j) of a window lies in it. */
  lemma AtInWindow(p: Plane, w: int, h: int, i: int, j: int)
    requires 0 <= i < h && 0 <= j < w
    ensures InWindow(At(p, i, j), p, w, h)
  {
    assert InRow(At(p, i, j), p, i, w);
  }

  /** Samples lo until hi of row i of p hold r[lo..hi]. */
  ghost predicate RowHolds<T>(s: seq<T>, p: Plane, i: int, lo: int, hi: int, r: seq<T>)
  {
    0 <= lo && hi <= |r| && forall j :: lo <= j < hi ==> 0 <= At(p, i, j) < |s| && s[At(p, i, j)] == r[j]
  }

  /** Row i of a fitting window lies in its plane's extent. */
  lemma RowInExtent(p: Plane, w: int, h: int, i: int)
    requires 0 <= i < h && 0 <= w <= p.stride
    ensures forall k :: InRow(k, p, i, w) ==> InExtent(k, p, h)
  {
    RowFacts(p, h);
  }

  /** Changes made only in row i keep the rows before it. */
  lemma DoneRowKept<T>(s1: seq<T>, s2: seq<T>, p: Plane, M: Matrix<T>, w: nat, h: nat, i: int)
    requires IsMatrix(M, w, h) && w <= p.stride && |s1| == |s2| && DoneUpTo(s1, p, M, i, 0)
    requires forall k :: 0 <= k < |s1| && InExtent(k, p, h) && !InRow(k, p, i, w) ==> s1[k] == s2[k]
    ensures DoneUpTo(s2, p, M, i, 0)
  {
    RowFacts(p, h);
  }

  /** A buffer unchanged over p's extent keeps p's finished cells. */
  lemma DoneFrame<T>(s1: seq<T>, s2: seq<T>, p: Plane, M: Matrix<T>, w: nat, h: nat, i: int, j: int)
    requires IsMatrix(M, w, h) && w <= p.stride && |s1| == |s2| && DoneUpTo(s1, p, M, i, j)
    requires forall k :: 0 <= k < |s1| && InExtent(k, p, h) ==> s1[k] == s2[k]
    ensures DoneUpTo(s2, p, M, i, j)
  {
    RowFacts(p, h);
  }

  /** A buffer unchanged over p's extent keeps what row i of p held. */
  lemma RowFrame<T>(s1: seq<T>, s2: seq<T>, p: Plane, w: int, h: int, i: int, r: seq<T>)
    requires 0 <= i < h && 0 <= w <= p.stride && |s1| == |s2| && RowHolds(s1, p, i, 0, w, r)
    requires forall k :: 0 <= k < |s1| && InExtent(k, p, h) ==> s1[k] == s2[k]
    ensures RowHolds(s2, p, i, 0, w, r)
  {
    RowInExtent(p, w, h, i);
  }

  /** Writing r[j] at sample (i, j) extends a row prefix by one. */
  lemma RowStep<T>(s: seq<T>, p: Plane, i: int, j: int, r: seq<T>)
    requires RowHolds(s, p, i, 0, j, r) && 0 <= j < |r| && 0 <= At(p, i, j) < |s|
    ensures RowHolds(s[At(p, i, j) := r[j]], p, i, 0, j + 1, r)
  {
  }

  /** A write outside p's extent keeps what row i of p held. */
  lemma RowKeptWrite<T>(s: seq<T>, p: Plane, w: int, h: int, i: int, hi: int, r: seq<T>, k: int, v: T)
    requires 0 <= i < h && 0 <= hi <= w <= p.stride && RowHolds(s, p, i, 0, hi, r)
    requires 0 <= k < |s| && !InExtent(k, p, h)
    ensures RowHolds(s[k := v], p, i, 0, hi, r)
  {
    RowInExtent(p, w, h, i);
  }

  /** The padding samples past the first w of any row are not in row i's window. */
  lemma PaddingOutsideRow(p: Plane, w: int, h: int, i: int)
    requires 0 <= i < h && 0 <= w <= p.stride
    ensures forall i', j' :: 0 <= i' < h && w <= j' < p.stride ==> !InRow(At(p, i', j'), p, i, w)
  {
    RowFacts(p, h);
  }

  /** A row written in full after the rows before it. */
  lemma RowComplete<T>(s: seq<T>, p: Plane, M: Matrix<T>, w: nat, h: nat, i: int)
    requires IsMatrix(M, w, h) && 0 <= i < h && DoneUpTo(s, p, M, i, 0) && RowHolds(s, p, i, 0, w, M[i])
    ensures DoneUpTo(s, p, M, i + 1, 0)
    ensures i + 1 == h ==> Holds(s, p, M)
  {
  }

  /** A write outside p's extent keeps what p held. */
  lemma HoldsKept<T>(s: seq<T>, p: Plane, M: Matrix<T>, w: nat, h: nat, k: int, v: T)
    requires Holds(s, p, M) && IsMatrix(M, w, h) && w <= p.stride && 0 <= k < |s| && !InExtent(k, p, h)
    ensures Holds(s[k := v], p, M)
  {
    RowFacts(p, h);
  }

  /** i mirrored into [0, n) as vf_adm.c does it: absolute value first, then
      reflection past the far edge, 2n - i - 1. */
  function Reflect(i: int, n: int): (r: int)
    ensures 0 <= i < n ==> r == i
    ensures n >= 2 && -1 <= i <= n + 1 ==> 0 <= r < n
  {
    var a := if i < 0 then -i else i;
    if a >= n then 2 * n - a - 1 else a
  }

  /** i mirrored as vf_ansnr.c does it: negation or far-edge reflection, never both. */
  function ReflectOnce(i: int, n: int): (r: int)
    ensures 0 <= i < n ==> r == i
    ensures -n < i < 2 * n ==> 0 <= r < n
  {
    if i < 0 then -i else if i >= n then 2 * n - i - 1 else i
  }

  /** The wavelet reflect stays in bounds for every raw index in [-1, n + 1]
      exactly when n >= 2. For n = 1 the raw index 2 maps to -1. */
  lemma WaveletReflectInBoundsIff(n: nat)
    ensures (forall i :: -1 <= i <= n + 1 ==> 0 <= Reflect(i, n) < n) <==> n >= 2
  {
    if n < 2 {
      if n == 1 {
        assert Reflect(2, 1) == -1;
      } else {
        assert Reflect(0, 0) == -1;
      }
    }
  }

  /** The 3x3 masking window reads raw indices in [-1, n], which reflect into
      [0, n) for every n >= 1. */
  lemma MaskReflectInBounds(i: int, n: nat)
    requires n >= 1 && -1 <= i <= n
    ensures 0 <= Reflect(i, n) < n
  {
  }

  /** Raw index read by tap f of a width-fw kernel centred on i: `i - fwidth / 2 + fi`. */
  function KernelTap(i: int, fw: int, f: int): int
  {
    i - fw / 2 + f
  }

  /** One tap of a width-fw kernel centred on an in-bounds sample lands in
      bounds once n > fw / 2. */
  lemma ReflectOnceInBounds(i: int, n: nat, fw: nat, f: int)
    requires n > fw / 2 && 0 <= i < n && 0 <= f < fw
    ensures 0 <= ReflectOnce(KernelTap(i, fw, f), n) < n
  {
  }

  /** A square kernel of width fw centred on each sample of an n-long axis
      reads only in-bounds samples exactly when n > fw / 2. */
  lemma ReflectOnceInBoundsIff(n: nat, fw: nat)
    requires n >= 1 && fw >= 1
    ensures (forall i, f :: 0 <= i < n && 0 <= f < fw ==> 0 <= ReflectOnce(KernelTap(i, fw, f), n) < n)
            <==> n > fw / 2
  {
    if n <= fw / 2 {
      assert ReflectOnce(KernelTap(0, fw, 0), n) == fw / 2;
    }
  }
}
