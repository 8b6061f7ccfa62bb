/** The ADM kernels of vf_adm.c as imperative code over one scratch arena
    (an array of samples) carved into planes. Each kernel is proved to
    leave in its destination planes exactly the matrices the reference
    definitions of module AdmModel give; the plane-level kernels also
    change nothing outside those planes' windows, and the per-level steps
    nothing outside their own arena regions. */
module Adm {
  import opened Layout
  import opened AdmModel

  /** adm_dwt_band_t: the approximation band and the three detail bands. */
  datatype Quartet = Quartet(a: Plane, h: Plane, v: Plane, d: Plane)

  /** The detail band of orientation theta (0 horizontal, 1 vertical, 2 diagonal). */
  function Angle(q: Quartet, theta: int): Plane
    requires 0 <= theta < 3
  {
    if theta == 0 then q.h else if theta == 1 then q.v else q.d
  }

  predicate InDetail(k: int, q: Quartet, h: int)
  {
    InExtent(k, q.h, h) || InExtent(k, q.v, h) || InExtent(k, q.d, h)
  }

  /** Index k lies in the w x h window of one of q's detail bands. */
  predicate InDetailWindow(k: int, q: Quartet, w: int, h: int)
  {
    InWindow(k, q.h, w, h) || InWindow(k, q.v, w, h) || InWindow(k, q.d, w, h)
  }

  predicate DetailFits(q: Quartet, w: int, h: int, len: int)
  {
    Fits(q.h, w, h, len) && Fits(q.v, w, h, len) && Fits(q.d, w, h, len)
  }

  /** The three detail bands of q do not overlap each other. */
  predicate DetailDistinct(q: Quartet, h: int)
  {
    Apart(q.h, q.v, h) && Apart(q.h, q.d, h) && Apart(q.v, q.d, h)
  }

  /** Plane p overlaps no detail band of q. */
  predicate ApartFromDetail(p: Plane, q: Quartet, h: int)
  {
    Apart(p, q.h, h) && Apart(p, q.v, h) && Apart(p, q.d, h)
  }

  /** No detail band of p overlaps a detail band of q. */
  predicate DetailsApart(p: Quartet, q: Quartet, h: int)
  {
    ApartFromDetail(p.h, q, h) && ApartFromDetail(p.v, q, h) && ApartFromDetail(p.d, q, h)
  }

  /** Cell (i, j) of each detail band of q lies in that band's extent. */
  predicate CellIn(q: Quartet, h: int, i: int, j: int)
  {
    InExtent(At(q.h, i, j), q.h, h) && InExtent(At(q.v, i, j), q.v, h) && InExtent(At(q.d, i, j), q.d, h)
  }

  lemma CellInDetail(q: Quartet, w: int, h: int, len: int, i: int, j: int)
    requires DetailFits(q, w, h, len) && 0 <= i < h && 0 <= j < w
    ensures CellIn(q, h, i, j)
  {
    AtInExtent(q.h, w, h, i, j);
    AtInExtent(q.v, w, h, i, j);
    AtInExtent(q.d, w, h, i, j);
  }

  ghost predicate DoneDetail(s: seq<real>, q: Quartet, D: Detail, i: int, j: int)
  {
    DoneUpTo(s, q.h, D.h, i, j) && DoneUpTo(s, q.v, D.v, i, j) && DoneUpTo(s, q.d, D.d, i, j)
  }

  ghost predicate HoldsDetail(s: seq<real>, q: Quartet, D: Detail)
  {
    Holds(s, q.h, D.h) && Holds(s, q.v, D.v) && Holds(s, q.d, D.d)
  }

  /** A buffer changed only outside the extents of q's detail bands still
      holds whatever q's detail bands held. */
  lemma DetailFrame(s1: seq<real>, s2: seq<real>, q: Quartet, D: Detail, w: nat, h: nat)
    requires HoldsDetail(s1, q, D) && IsDetail(D, w, h) && |s1| == |s2|
    requires w <= q.h.stride && w <= q.v.stride && w <= q.d.stride
    requires forall k :: InDetail(k, q, h) && 0 <= k < |s1| ==> s1[k] == s2[k]
    ensures HoldsDetail(s2, q, D)
  {
    HoldsFrame(s1, s2, q.h, D.h, w, h);
    HoldsFrame(s1, s2, q.v, D.v, w, h);
    HoldsFrame(s1, s2, q.d, D.d, w, h);
  }

  /** s with cell (i, j) of q's three detail bands set to v. */
  function Put3(s: seq<real>, q: Quartet, h: int, i: int, j: int, v: Triple): (s': seq<real>)
    requires CellIn(q, h, i, j) && q.h.off + h * q.h.stride <= |s|
    requires q.v.off + h * q.v.stride <= |s| && q.d.off + h * q.d.stride <= |s|
    ensures |s'| == |s|
  {
    s[At(q.h, i, j) := v.h][At(q.v, i, j) := v.v][At(q.d, i, j) := v.d]
  }

  lemma Put3Frame(s: seq<real>, q: Quartet, w: nat, h: nat, i: int, j: int, v: Triple)
    requires CellIn(q, h, i, j) && DetailFits(q, w, h, |s|)
    ensures forall k :: 0 <= k < |s| && !InDetail(k, q, h) ==> Put3(s, q, h, i, j, v)[k] == s[k]
  {
  }

  /** Storing cell (i, j) of q changes nothing outside the windows of q's detail bands. */
  lemma Put3WindowFrame(s: seq<real>, q: Quartet, w: nat, h: nat, i: int, j: int, v: Triple)
    requires CellIn(q, h, i, j) && DetailFits(q, w, h, |s|) && 0 <= i < h && 0 <= j < w
    ensures forall k :: 0 <= k < |s| && !InDetailWindow(k, q, w, h) ==> Put3(s, q, h, i, j, v)[k] == s[k]
  {
    AtInWindow(q.h, w, h, i, j);
    AtInWindow(q.v, w, h, i, j);
    AtInWindow(q.d, w, h, i, j);
  }

  /** Storing cell (i, j) of q extends q's row-major prefix by that cell. */
  lemma Put3Done(s: seq<real>, q: Quartet, D: Detail, w: nat, h: nat, i: int, j: int, v: Triple)
    requires IsDetail(D, w, h) && DetailFits(q, w, h, |s|) && DetailDistinct(q, h)
    requires CellIn(q, h, i, j) && 0 <= i < h && 0 <= j < w
    requires DoneDetail(s, q, D, i, j) && v == Triple(D.h[i][j], D.v[i][j], D.d[i][j])
    ensures DoneDetail(Put3(s, q, h, i, j, v), q, D, i, j + 1)
  {
    var kh, kv, kd := At(q.h, i, j), At(q.v, i, j), At(q.d, i, j);
    DoneStep(s, q.h, D.h, w, h, i, j);
    DoneKept(s, q.v, D.v, w, h, i, j, kh, v.h);
    DoneKept(s, q.d, D.d, w, h, i, j, kh, v.h);
    var s1 := s[kh := v.h];
    DoneKept(s1, q.h, D.h, w, h, i, j + 1, kv, v.v);
    DoneStep(s1, q.v, D.v, w, h, i, j);
    DoneKept(s1, q.d, D.d, w, h, i, j, kv, v.v);
    var s2 := s1[kv := v.v];
    DoneKept(s2, q.h, D.h, w, h, i, j + 1, kd, v.d);
    DoneKept(s2, q.v, D.v, w, h, i, j + 1, kd, v.d);
    DoneStep(s2, q.d, D.d, w, h, i, j);
  }

  /** Storing cell (i, j) of p keeps the prefix stored in q, apart from p. */
  lemma Put3Kept(s: seq<real>, p: Quartet, q: Quartet, D: Detail, w: nat, h: nat, i: int, j: int, i0: int, j0: int, v: Triple)
    requires IsDetail(D, w, h) && DetailFits(q, w, h, |s|) && DetailFits(p, w, h, |s|)
    requires CellIn(p, h, i0, j0) && DetailsApart(p, q, h)
    requires DoneDetail(s, q, D, i, j)
    ensures DoneDetail(Put3(s, p, h, i0, j0, v), q, D, i, j)
  {
    var kh, kv, kd := At(p.h, i0, j0), At(p.v, i0, j0), At(p.d, i0, j0);
    DoneKept(s, q.h, D.h, w, h, i, j, kh, v.h);
    DoneKept(s, q.v, D.v, w, h, i, j, kh, v.h);
    DoneKept(s, q.d, D.d, w, h, i, j, kh, v.h);
    var s1 := s[kh := v.h];
    DoneKept(s1, q.h, D.h, w, h, i, j, kv, v.v);
    DoneKept(s1, q.v, D.v, w, h, i, j, kv, v.v);
    DoneKept(s1, q.d, D.d, w, h, i, j, kv, v.v);
    var s2 := s1[kv := v.v];
    DoneKept(s2, q.h, D.h, w, h, i, j, kd, v.d);
    DoneKept(s2, q.v, D.v, w, h, i, j, kd, v.d);
    DoneKept(s2, q.d, D.d, w, h, i, j, kd, v.d);
  }

  /** Cell (i, j) of src still holds D's values after changes made only
      inside the detail bands of p and q, both apart from src. */
  lemma CellKept(s0: seq<real>, s1: seq<real>, src: Quartet, D: Detail, p: Quartet, q: Quartet, w: nat, h: nat, i: int, j: int)
    requires IsDetail(D, w, h) && HoldsDetail(s0, src, D) && |s0| == |s1|
    requires CellIn(src, h, i, j) && 0 <= i < h && 0 <= j < w && DetailFits(src, w, h, |s0|)
    requires DetailsApart(src, p, h) && DetailsApart(src, q, h)
    requires forall k :: 0 <= k < |s0| && !InDetail(k, p, h) && !InDetail(k, q, h) ==> s1[k] == s0[k]
    ensures s1[At(src.h, i, j)] == D.h[i][j] && s1[At(src.v, i, j)] == D.v[i][j] && s1[At(src.d, i, j)] == D.d[i][j]
  {
  }

  /** Cell (i, j) of src still holds D's values after changes made only
      inside the detail bands of q, apart from src. */
  lemma CellKept1(s0: seq<real>, s1: seq<real>, src: Quartet, D: Detail, q: Quartet, w: nat, h: nat, i: int, j: int)
    requires IsDetail(D, w, h) && HoldsDetail(s0, src, D) && |s0| == |s1|
    requires CellIn(src, h, i, j) && 0 <= i < h && 0 <= j < w && DetailFits(src, w, h, |s0|)
    requires DetailsApart(src, q, h)
    requires forall k :: 0 <= k < |s0| && !InDetail(k, q, h) ==> s1[k] == s0[k]
    ensures s1[At(src.h, i, j)] == D.h[i][j] && s1[At(src.v, i, j)] == D.v[i][j] && s1[At(src.d, i, j)] == D.d[i][j]
  {
  }

  /** The detail bands of src still hold D after changes made only inside
      the detail bands of p and q, both apart from src. */
  lemma DetailKept(s0: seq<real>, s1: seq<real>, src: Quartet, D: Detail, p: Quartet, q: Quartet, w: nat, h: nat)
    requires IsDetail(D, w, h) && HoldsDetail(s0, src, D) && |s0| == |s1| && DetailFits(src, w, h, |s0|)
    requires DetailsApart(src, p, h) && DetailsApart(src, q, h)
    requires forall k :: 0 <= k < |s0| && !InDetail(k, p, h) && !InDetail(k, q, h) ==> s1[k] == s0[k]
    ensures HoldsDetail(s1, src, D)
  {
    DetailFrame(s0, s1, src, D, w, h);
  }

  /** Sample (i, j) of p still holds M's value after changes made only
      inside the detail bands of q, apart from p. */
  lemma PlaneCellKept(s0: seq<real>, s1: seq<real>, p: Plane, M: Matrix<real>, q: Quartet, w: nat, h: nat, i: int, j: int)
    requires IsMatrix(M, w, h) && Holds(s0, p, M) && |s0| == |s1|
    requires 0 <= i < h && 0 <= j < w && InExtent(At(p, i, j), p, h) && ApartFromDetail(p, q, h)
    requires forall k :: 0 <= k < |s0| && !InDetail(k, q, h) ==> s1[k] == s0[k]
    ensures s1[At(p, i, j)] == M[i][j]
  {
  }

  /** Stores the three orientation values of cell (i, j) of q. */
  method StoreCell(buf: array<real>, q: Quartet, w: nat, h: nat, i: int, j: int, v: Triple)
    requires DetailFits(q, w, h, buf.Length) && CellIn(q, h, i, j)
    modifies buf
    ensures buf[..] == Put3(old(buf[..]), q, h, i, j, v)
  {
    ghost var s0 := buf[..];
    buf[At(q.h, i, j)] := v.h;
    assert buf[..] == s0[At(q.h, i, j) := v.h];
    ghost var s1 := buf[..];
    buf[At(q.v, i, j)] := v.v;
    assert buf[..] == s1[At(q.v, i, j) := v.v];
    ghost var s2 := buf[..];
    buf[At(q.d, i, j)] := v.d;
    assert buf[..] == s2[At(q.d, i, j) := v.d];
  }

  // ---------------------------------------------------------------------
  // adm_decouple
  // ---------------------------------------------------------------------

  /** adm_decouple: for every cell, the restored bands r receive the
      distorted coefficients when the angle test passes and the clamped-gain
      scaled reference coefficients otherwise; the impairment bands a
      receive distorted minus restored. */
  method AdmDecouple(buf: array<real>, ref: Quartet, main: Quartet, r: Quartet, a: Quartet,
                     w: nat, h: nat, ghost O: Detail, ghost T: Detail)
    requires IsDetail(O, w, h) && IsDetail(T, w, h)
    requires HoldsDetail(buf[..], ref, O) && HoldsDetail(buf[..], main, T)
    requires DetailFits(ref, w, h, buf.Length) && DetailFits(main, w, h, buf.Length)
    requires DetailFits(r, w, h, buf.Length) && DetailFits(a, w, h, buf.Length)
    requires DetailDistinct(r, h) && DetailDistinct(a, h) && DetailsApart(r, a, h)
    requires DetailsApart(ref, r, h) && DetailsApart(ref, a, h)
    requires DetailsApart(main, r, h) && DetailsApart(main, a, h)
    modifies buf
    ensures HoldsDetail(buf[..], r, DecoupleR(O, T, w, h))
    ensures HoldsDetail(buf[..], a, DecoupleA(O, T, w, h))
    ensures forall k :: 0 <= k < buf.Length && !InDetail(k, r, h) && !InDetail(k, a, h) ==> buf[k] == old(buf[k])
    ensures forall k :: 0 <= k < buf.Length && !InDetailWindow(k, r, w, h) && !InDetailWindow(k, a, w, h) ==> buf[k] == old(buf[k])
  {
    ghost var DR, DA := DecoupleR(O, T, w, h), DecoupleA(O, T, w, h);
    var i := 0;
    while i < h
      invariant 0 <= i <= h
      invariant HoldsDetail(buf[..], ref, O) && HoldsDetail(buf[..], main, T)
      invariant DoneDetail(buf[..], r, DR, i, 0) && DoneDetail(buf[..], a, DA, i, 0)
      invariant forall k :: 0 <= k < buf.Length && !InDetail(k, r, h) && !InDetail(k, a, h) ==> buf[k] == old(buf[k])
      invariant forall k :: 0 <= k < buf.Length && !InDetailWindow(k, r, w, h) && !InDetailWindow(k, a, w, h) ==> buf[k] == old(buf[k])
    {
      DecoupleRow(buf, ref, main, r, a, w, h, i, O, T);
      DoneRow(buf[..], r.h, DR.h, w, h, i);
      DoneRow(buf[..], r.v, DR.v, w, h, i);
      DoneRow(buf[..], r.d, DR.d, w, h, i);
      DoneRow(buf[..], a.h, DA.h, w, h, i);
      DoneRow(buf[..], a.v, DA.v, w, h, i);
      DoneRow(buf[..], a.d, DA.d, w, h, i);
      i := i + 1;
    }
  }

  /** The inner loop of adm_decouple: row i of both output quartets. */
  method DecoupleRow(buf: array<real>, ref: Quartet, main: Quartet, r: Quartet, a: Quartet,
                     w: nat, h: nat, i: int, ghost O: Detail, ghost T: Detail)
    requires 0 <= i < h
    requires IsDetail(O, w, h) && IsDetail(T, w, h)
    requires HoldsDetail(buf[..], ref, O) && HoldsDetail(buf[..], main, T)
    requires DetailFits(ref, w, h, buf.Length) && DetailFits(main, w, h, buf.Length)
    requires DetailFits(r, w, h, buf.Length) && DetailFits(a, w, h, buf.Length)
    requires DetailDistinct(r, h) && DetailDistinct(a, h) && DetailsApart(r, a, h)
    requires DetailsApart(ref, r, h) && DetailsApart(ref, a, h)
    requires DetailsApart(main, r, h) && DetailsApart(main, a, h)
    requires DoneDetail(buf[..], r, DecoupleR(O, T, w, h), i, 0) && DoneDetail(buf[..], a, DecoupleA(O, T, w, h), i, 0)
    modifies buf
    ensures HoldsDetail(buf[..], ref, O) && HoldsDetail(buf[..], main, T)
    ensures DoneDetail(buf[..], r, DecoupleR(O, T, w, h), i, w) && DoneDetail(buf[..], a, DecoupleA(O, T, w, h), i, w)
    ensures forall k :: 0 <= k < buf.Length && !InDetail(k, r, h) && !InDetail(k, a, h) ==> buf[k] == old(buf[k])
    ensures forall k :: 0 <= k < buf.Length && !InDetailWindow(k, r, w, h) && !InDetailWindow(k, a, w, h) ==> buf[k] == old(buf[k])
  {
    ghost var s00 := buf[..];
    var j := 0;
    while j < w
      invariant 0 <= j <= w
      invariant DoneDetail(buf[..], r, DecoupleR(O, T, w, h), i, j) && DoneDetail(buf[..], a, DecoupleA(O, T, w, h), i, j)
      invariant forall k :: 0 <= k < buf.Length && !InDetail(k, r, h) && !InDetail(k, a, h) ==> buf[k] == old(buf[k])
      invariant forall k :: 0 <= k < buf.Length && !InDetailWindow(k, r, w, h) && !InDetailWindow(k, a, w, h) ==> buf[k] == old(buf[k])
    {
      CellInDetail(ref, w, h, buf.Length, i, j);
      CellInDetail(main, w, h, buf.Length, i, j);
      CellInDetail(r, w, h, buf.Length, i, j);
      CellInDetail(a, w, h, buf.Length, i, j);
      CellKept(s00, buf[..], ref, O, r, a, w, h, i, j);
      CellKept(s00, buf[..], main, T, r, a, w, h, i, j);
      DecoupleCell(buf, ref, main, r, a, w, h, i, j, O, T);
      j := j + 1;
    }
    DetailKept(s00, buf[..], ref, O, r, a, w, h);
    DetailKept(s00, buf[..], main, T, r, a, w, h);
  }

  /** The body of adm_decouple's loops for cell (i, j). */
  method DecoupleCell(buf: array<real>, ref: Quartet, main: Quartet, r: Quartet, a: Quartet,
                      w: nat, h: nat, i: int, j: int, ghost O: Detail, ghost T: Detail)
    requires 0 <= i < h && 0 <= j < w
    requires IsDetail(O, w, h) && IsDetail(T, w, h)
    requires DetailFits(ref, w, h, buf.Length) && DetailFits(main, w, h, buf.Length)
    requires DetailFits(r, w, h, buf.Length) && DetailFits(a, w, h, buf.Length)
    requires DetailDistinct(r, h) && DetailDistinct(a, h) && DetailsApart(r, a, h)
    requires DetailsApart(ref, r, h) && DetailsApart(ref, a, h)
    requires DetailsApart(main, r, h) && DetailsApart(main, a, h)
    requires CellIn(ref, h, i, j) && CellIn(main, h, i, j) && CellIn(r, h, i, j) && CellIn(a, h, i, j)
    requires buf[At(ref.h, i, j)] == O.h[i][j] && buf[At(ref.v, i, j)] == O.v[i][j] && buf[At(ref.d, i, j)] == O.d[i][j]
    requires buf[At(main.h, i, j)] == T.h[i][j] && buf[At(main.v, i, j)] == T.v[i][j] && buf[At(main.d, i, j)] == T.d[i][j]
    requires DoneDetail(buf[..], r, DecoupleR(O, T, w, h), i, j) && DoneDetail(buf[..], a, DecoupleA(O, T, w, h), i, j)
    modifies buf
    ensures DoneDetail(buf[..], r, DecoupleR(O, T, w, h), i, j + 1) && DoneDetail(buf[..], a, DecoupleA(O, T, w, h), i, j + 1)
    ensures forall k :: 0 <= k < buf.Length && !InDetail(k, r, h) && !InDetail(k, a, h) ==> buf[k] == old(buf[k])
    ensures forall k :: 0 <= k < buf.Length && !InDetailWindow(k, r, w, h) && !InDetailWindow(k, a, w, h) ==> buf[k] == old(buf[k])
  {
    var o := Triple(buf[At(ref.h, i, j)], buf[At(ref.v, i, j)], buf[At(ref.d, i, j)]);
    var t := Triple(buf[At(main.h, i, j)], buf[At(main.v, i, j)], buf[At(main.d, i, j)]);
    var tmp := Restored(o, t);
    var imp := Triple(t.h - tmp.h, t.v - tmp.v, t.d - tmp.d);
    ghost var DR, DA := DecoupleR(O, T, w, h), DecoupleA(O, T, w, h);
    ghost var s0 := buf[..];
    StoreCell(buf, r, w, h, i, j, tmp);
    ghost var s1 := buf[..];
    StoreCell(buf, a, w, h, i, j, imp);
    Put3Done(s0, r, DR, w, h, i, j, tmp);
    Put3Kept(s0, r, a, DA, w, h, i, j, i, j, tmp);
    Put3Done(s1, a, DA, w, h, i, j, imp);
    Put3Kept(s1, a, r, DR, w, h, i, j + 1, i, j, imp);
    Put3Frame(s0, r, w, h, i, j, tmp);
    Put3Frame(s1, a, w, h, i, j, imp);
    Put3WindowFrame(s0, r, w, h, i, j, tmp);
    Put3WindowFrame(s1, a, w, h, i, j, imp);
  }

  // ---------------------------------------------------------------------
  // adm_sum_cube
  // ---------------------------------------------------------------------

  /** adm_sum_cube: the pooled value of the band held in plane p, summing
      cubed magnitudes row by row over the window inside the borders. */
  method AdmSumCube(buf: array<real>, p: Plane, w: nat, h: nat, bf: real, cubeRoot: real -> real,
                    ghost M: Matrix<real>)
    returns (r: real)
    requires IsMatrix(M, w, h) && Holds(buf[..], p, M) && bf >= 0.0
    ensures r == Pool(M, w, h, bf, cubeRoot)
  {
    var left := Trunc(w as real * bf - 0.5);
    var top := Trunc(h as real * bf - 0.5);
    var right := w - left;
    var bottom := h - top;
    assert PoolRect(left, top, right, bottom) == PoolWindow(w, h, bf);
    var sum := 0.0;
    var i := top;
    while i < bottom
      invariant top <= i && (i <= bottom || i == top)
      invariant sum == CubeRows(M, left, right, top, if i <= bottom then i else bottom)
    {
      ghost var base := sum;
      var j := left;
      while j < right
        invariant left <= j && (j <= right || j == left)
        invariant sum == base + CubeRow(M[i], left, if j <= right then j else right)
      {
        var val := Abs(buf[At(p, i, j)]);
        sum := sum + Cube(val);
        j := j + 1;
      }
      i := i + 1;
    }
    r := cubeRoot(sum) + cubeRoot(((bottom - top) * (right - left)) as real / 32.0);
  }

  // ---------------------------------------------------------------------
  // adm_cm_thresh
  // ---------------------------------------------------------------------

  /** Row i of the threshold after t orientations have been accumulated. */
  ghost function ThreshRow(A: Detail, w: nat, h: nat, i: int, t: nat): (r: seq<real>)
    requires IsDetail(A, w, h) && 0 <= i < h && t <= 3
    ensures |r| == w && forall j :: 0 <= j < w ==> r[j] == ThreshPartial(A, w, h, i, j, t)
  {
    seq(w, j requires 0 <= j < w => ThreshPartial(A, w, h, i, j, t))
  }

  /** One more tap of window row fi adds the weighted magnitude of the
      mirrored sample (si, sj). */
  lemma MaskRowStep(M: Matrix<real>, w: nat, h: nat, i: int, j: int, fi: int, fj: int, si: int, sj: int,
                    coeff: real, imgCoeff: real)
    requires IsMatrix(M, w, h) && 0 <= i < h && 0 <= j < w && 0 <= fi < 3 && 0 <= fj < 3
    requires si == Reflect(i - 1 + fi, h) && sj == Reflect(j - 1 + fj, w) && 0 <= si < h && 0 <= sj < w
    requires coeff == (if fi == 1 && fj == 1 then 1.0 / 15.0 else 1.0 / 30.0) && imgCoeff == Abs(M[si][sj])
    ensures MaskRow(M, w, h, i, j, fi, fj + 1) == MaskRow(M, w, h, i, j, fi, fj) + coeff * imgCoeff
  {
  }

  /** Window row fi of the weighted 3x3 sum around (i, j): the centre
      weighs 1/15, every other tap 1/30, columns mirrored at the edges. */
  method MaskWindowRow(buf: array<real>, sp: Plane, w: nat, h: nat, i: int, j: int, fi: int, si: int,
                       ghost M: Matrix<real>)
    returns (sum: real)
    requires IsMatrix(M, w, h) && Holds(buf[..], sp, M) && 0 <= i < h && 0 <= j < w && 0 <= fi < 3
    requires si == Reflect(i - 1 + fi, h) && 0 <= si < h
    ensures sum == MaskRow(M, w, h, i, j, fi, 3)
  {
    sum := 0.0;
    var fj := 0;
    while fj < 3
      invariant 0 <= fj <= 3
      invariant sum == MaskRow(M, w, h, i, j, fi, fj)
    {
      var coeff := if fi == 1 && fj == 1 then 1.0 / 15.0 else 1.0 / 30.0;
      var sj := j - 1 + fj;
      sj := if sj < 0 then -sj else sj;
      if sj >= w {
        sj := 2 * w - sj - 1;
      }
      MaskReflectInBounds(j - 1 + fj, w);
      assert sj == Reflect(j - 1 + fj, w);
      HeldAt(buf[..], sp, M, si, sj);
      var imgCoeff := Abs(buf[At(sp, si, sj)]);
      MaskRowStep(M, w, h, i, j, fi, fj, si, sj, coeff, imgCoeff);
      sum := sum + coeff * imgCoeff;
      fj := fj + 1;
    }
  }

  /** The weighted 3x3 window sum around (i, j), read with the mirrored
      indices of adm_cm_thresh. */
  method MaskWindow(buf: array<real>, sp: Plane, w: nat, h: nat, i: int, j: int, ghost M: Matrix<real>)
    returns (sum: real)
    requires IsMatrix(M, w, h) && Holds(buf[..], sp, M) && 0 <= i < h && 0 <= j < w
    ensures sum == MaskSum(M, w, h, i, j, 3)
  {
    sum := 0.0;
    var fi := 0;
    while fi < 3
      invariant 0 <= fi <= 3
      invariant sum == MaskSum(M, w, h, i, j, fi)
    {
      var si := i - 1 + fi;
      si := if si < 0 then -si else si;
      if si >= h {
        si := 2 * h - si - 1;
      }
      MaskReflectInBounds(i - 1 + fi, h);
      assert si == Reflect(i - 1 + fi, h);
      var rowSum := MaskWindowRow(buf, sp, w, h, i, j, fi, si, M);
      sum := sum + rowSum;
      fi := fi + 1;
    }
  }

  /** One orientation pass of adm_cm_thresh over row i: each threshold
      sample gains the window sum of orientation theta. */
  method ThreshAccumulate(buf: array<real>, sp: Plane, dst: Plane, w: nat, h: nat, i: int, theta: nat,
                          ghost A: Detail)
    requires IsDetail(A, w, h) && 0 <= i < h && theta < 3
    requires Holds(buf[..], sp, Orient(A, theta)) && Fits(sp, w, h, buf.Length)
    requires Fits(dst, w, h, buf.Length) && Apart(sp, dst, h)
    requires RowHolds(buf[..], dst, i, 0, w, ThreshRow(A, w, h, i, theta))
    modifies buf
    ensures RowHolds(buf[..], dst, i, 0, w, ThreshRow(A, w, h, i, theta + 1))
    ensures forall k :: 0 <= k < buf.Length && !InRow(k, dst, i, w) ==> buf[k] == old(buf[k])
  {
    ghost var M := Orient(A, theta);
    ghost var before, after := ThreshRow(A, w, h, i, theta), ThreshRow(A, w, h, i, theta + 1);
    var j := 0;
    while j < w
      invariant 0 <= j <= w
      invariant Holds(buf[..], sp, M)
      invariant RowHolds(buf[..], dst, i, 0, j, after) && RowHolds(buf[..], dst, i, j, w, before)
      invariant forall k :: 0 <= k < buf.Length && !InRow(k, dst, i, w) ==> buf[k] == old(buf[k])
    {
      var sum := MaskWindow(buf, sp, w, h, i, j, M);
      AtInExtent(dst, w, h, i, j);
      var k := At(dst, i, j);
      var v := buf[k] + sum;
      assert v == after[j];
      ghost var s := buf[..];
      buf[k] := v;
      assert buf[..] == s[k := v];
      HoldsKept(s, sp, M, w, h, k, v);
      j := j + 1;
    }
  }

  /** Zeroes the first w samples of row i of dst, which is what z, a row of
      zeros, describes. */
  method ZeroRow(buf: array<real>, dst: Plane, w: nat, h: nat, i: int, ghost z: seq<real>)
    requires Fits(dst, w, h, buf.Length) && 0 <= i < h
    requires |z| == w && forall j :: 0 <= j < w ==> z[j] == 0.0
    modifies buf
    ensures RowHolds(buf[..], dst, i, 0, w, z)
    ensures forall k :: 0 <= k < buf.Length && !InRow(k, dst, i, w) ==> buf[k] == old(buf[k])
  {
    var j := 0;
    while j < w
      invariant 0 <= j <= w
      invariant RowHolds(buf[..], dst, i, 0, j, z)
      invariant forall k :: 0 <= k < buf.Length && !InRow(k, dst, i, w) ==> buf[k] == old(buf[k])
    {
      AtInExtent(dst, w, h, i, j);
      buf[At(dst, i, j)] := 0.0;
      j := j + 1;
    }
  }

  /** Row i of adm_cm_thresh: the row of dst is zeroed and then accumulates
      the window sums of the three orientations of src, which s0, the
      buffer before the call, holds and which the row does not overlap. */
  method ThreshRowPass(buf: array<real>, src: Quartet, dst: Plane, w: nat, h: nat, i: int,
                       ghost A: Detail, ghost s0: seq<real>)
    requires IsDetail(A, w, h) && HoldsDetail(s0, src, A) && 0 <= i < h
    requires DetailFits(src, w, h, buf.Length) && Fits(dst, w, h, buf.Length) && ApartFromDetail(dst, src, h)
    requires |s0| == buf.Length && forall k :: 0 <= k < buf.Length && !InExtent(k, dst, h) ==> buf[k] == s0[k]
    modifies buf
    ensures RowHolds(buf[..], dst, i, 0, w, ThreshRow(A, w, h, i, 3))
    ensures forall k :: 0 <= k < buf.Length && !InRow(k, dst, i, w) ==> buf[k] == old(buf[k])
  {
    RowInExtent(dst, w, h, i);
    ZeroRow(buf, dst, w, h, i, ThreshRow(A, w, h, i, 0));
    var theta := 0;
    while theta < 3
      invariant 0 <= theta <= 3
      invariant RowHolds(buf[..], dst, i, 0, w, ThreshRow(A, w, h, i, theta))
      invariant forall k :: 0 <= k < buf.Length && !InRow(k, dst, i, w) ==> buf[k] == old(buf[k])
    {
      HoldsApart(s0, buf[..], Angle(src, theta), dst, Orient(A, theta), w, h);
      ThreshAccumulate(buf, Angle(src, theta), dst, w, h, i, theta, A);
      theta := theta + 1;
    }
  }

  /** adm_cm_thresh: each row of dst is zeroed and then accumulates the
      window sums of the three orientations of src; dst ends up holding
      the masking threshold of the bands src holds. */
  method AdmCmThresh(buf: array<real>, src: Quartet, dst: Plane, w: nat, h: nat, ghost A: Detail)
    requires IsDetail(A, w, h) && HoldsDetail(buf[..], src, A)
    requires DetailFits(src, w, h, buf.Length) && Fits(dst, w, h, buf.Length) && ApartFromDetail(dst, src, h)
    modifies buf
    ensures Holds(buf[..], dst, Thresh(A, w, h))
    ensures forall k :: 0 <= k < buf.Length && !InExtent(k, dst, h) ==> buf[k] == old(buf[k])
    ensures forall k :: 0 <= k < buf.Length && !InWindow(k, dst, w, h) ==> buf[k] == old(buf[k])
  {
    ghost var T := Thresh(A, w, h);
    ghost var s00 := buf[..];
    var i := 0;
    while i < h
      invariant 0 <= i <= h
      invariant DoneUpTo(buf[..], dst, T, i, 0)
      invariant i == h ==> Holds(buf[..], dst, T)
      invariant forall k :: 0 <= k < buf.Length && !InExtent(k, dst, h) ==> buf[k] == old(buf[k])
      invariant forall k :: 0 <= k < buf.Length && !InWindow(k, dst, w, h) ==> buf[k] == old(buf[k])
    {
      ghost var s0 := buf[..];
      RowInExtent(dst, w, h, i);
      ThreshRowPass(buf, src, dst, w, h, i, A, s00);
      DoneRowKept(s0, buf[..], dst, T, w, h, i);
      assert RowHolds(buf[..], dst, i, 0, w, T[i]);
      RowComplete(buf[..], dst, T, w, h, i);
      i := i + 1;
    }
  }

  // ---------------------------------------------------------------------
  // adm_cm
  // ---------------------------------------------------------------------

  /** adm_cm: every cell of each detail band of dst is the excess of the
      magnitude of the matching src cell over the threshold, or zero. */
  method AdmCm(buf: array<real>, src: Quartet, dst: Quartet, thresh: Plane, w: nat, h: nat,
               ghost S: Detail, ghost Th: Matrix<real>)
    requires IsDetail(S, w, h) && IsMatrix(Th, w, h)
    requires HoldsDetail(buf[..], src, S) && Holds(buf[..], thresh, Th)
    requires DetailFits(src, w, h, buf.Length) && DetailFits(dst, w, h, buf.Length) && Fits(thresh, w, h, buf.Length)
    requires DetailDistinct(dst, h) && DetailsApart(src, dst, h) && ApartFromDetail(thresh, dst, h)
    modifies buf
    ensures HoldsDetail(buf[..], dst, Cm(S, Th, w, h))
    ensures forall k :: 0 <= k < buf.Length && !InDetail(k, dst, h) ==> buf[k] == old(buf[k])
    ensures forall k :: 0 <= k < buf.Length && !InDetailWindow(k, dst, w, h) ==> buf[k] == old(buf[k])
  {
    ghost var C := Cm(S, Th, w, h);
    ghost var s00 := buf[..];
    var i := 0;
    while i < h
      invariant 0 <= i <= h
      invariant DoneDetail(buf[..], dst, C, i, 0)
      invariant forall k :: 0 <= k < buf.Length && !InDetail(k, dst, h) ==> buf[k] == old(buf[k])
      invariant forall k :: 0 <= k < buf.Length && !InDetailWindow(k, dst, w, h) ==> buf[k] == old(buf[k])
    {
      var j := 0;
      while j < w
        invariant 0 <= j <= w
        invariant DoneDetail(buf[..], dst, C, i, j)
        invariant forall k :: 0 <= k < buf.Length && !InDetail(k, dst, h) ==> buf[k] == old(buf[k])
        invariant forall k :: 0 <= k < buf.Length && !InDetailWindow(k, dst, w, h) ==> buf[k] == old(buf[k])
      {
        CellInDetail(src, w, h, buf.Length, i, j);
        CellInDetail(dst, w, h, buf.Length, i, j);
        AtInExtent(thresh, w, h, i, j);
        CellKept1(s00, buf[..], src, S, dst, w, h, i, j);
        PlaneCellKept(s00, buf[..], thresh, Th, dst, w, h, i, j);
        CmAt(buf, src, dst, thresh, w, h, i, j, S, Th);
        j := j + 1;
      }
      DoneRow(buf[..], dst.h, C.h, w, h, i);
      DoneRow(buf[..], dst.v, C.v, w, h, i);
      DoneRow(buf[..], dst.d, C.d, w, h, i);
      i := i + 1;
    }
  }

  /** The body of adm_cm's loops for cell (i, j). */
  method CmAt(buf: array<real>, src: Quartet, dst: Quartet, thresh: Plane, w: nat, h: nat, i: int, j: int,
              ghost S: Detail, ghost Th: Matrix<real>)
    requires 0 <= i < h && 0 <= j < w
    requires IsDetail(S, w, h) && IsMatrix(Th, w, h)
    requires DetailFits(src, w, h, buf.Length) && DetailFits(dst, w, h, buf.Length) && Fits(thresh, w, h, buf.Length)
    requires DetailDistinct(dst, h)
    requires CellIn(src, h, i, j) && CellIn(dst, h, i, j) && InExtent(At(thresh, i, j), thresh, h)
    requires buf[At(src.h, i, j)] == S.h[i][j] && buf[At(src.v, i, j)] == S.v[i][j] && buf[At(src.d, i, j)] == S.d[i][j]
    requires buf[At(thresh, i, j)] == Th[i][j]
    requires DoneDetail(buf[..], dst, Cm(S, Th, w, h), i, j)
    modifies buf
    ensures DoneDetail(buf[..], dst, Cm(S, Th, w, h), i, j + 1)
    ensures forall k :: 0 <= k < buf.Length && !InDetail(k, dst, h) ==> buf[k] == old(buf[k])
    ensures forall k :: 0 <= k < buf.Length && !InDetailWindow(k, dst, w, h) ==> buf[k] == old(buf[k])
  {
    var xh, xv, xd := buf[At(src.h, i, j)], buf[At(src.v, i, j)], buf[At(src.d, i, j)];
    var thr := buf[At(thresh, i, j)];
    xh, xv, xd := Abs(xh) - thr, Abs(xv) - thr, Abs(xd) - thr;
    xh := if xh < 0.0 then 0.0 else xh;
    xv := if xv < 0.0 then 0.0 else xv;
    xd := if xd < 0.0 then 0.0 else xd;
    ghost var s0 := buf[..];
    StoreCell(buf, dst, w, h, i, j, Triple(xh, xv, xd));
    Put3Done(s0, dst, Cm(S, Th, w, h), w, h, i, j, Triple(xh, xv, xd));
    Put3Frame(s0, dst, w, h, i, j, Triple(xh, xv, xd));
    Put3WindowFrame(s0, dst, w, h, i, j, Triple(xh, xv, xd));
  }

  // ---------------------------------------------------------------------
  // adm_csf
  // ---------------------------------------------------------------------

  /** One orientation of adm_csf: every sample of dp becomes f times the
      matching sample of sp. */
  method ScalePlane(buf: array<real>, sp: Plane, dp: Plane, w: nat, h: nat, f: real, ghost M: Matrix<real>)
    requires IsMatrix(M, w, h) && Fits(sp, w, h, buf.Length) && Fits(dp, w, h, buf.Length) && Apart(sp, dp, h)
    requires Holds(buf[..], sp, M)
    modifies buf
    ensures Holds(buf[..], dp, Weighted(M, w, h, f))
    ensures forall k :: 0 <= k < buf.Length && !InExtent(k, dp, h) ==> buf[k] == old(buf[k])
    ensures forall k :: 0 <= k < buf.Length && !InWindow(k, dp, w, h) ==> buf[k] == old(buf[k])
  {
    ghost var W := Weighted(M, w, h, f);
    var i := 0;
    while i < h
      invariant 0 <= i <= h
      invariant DoneUpTo(buf[..], dp, W, i, 0)
      invariant forall k :: 0 <= k < buf.Length && !InExtent(k, dp, h) ==> buf[k] == old(buf[k])
      invariant forall k :: 0 <= k < buf.Length && !InWindow(k, dp, w, h) ==> buf[k] == old(buf[k])
    {
      var j := 0;
      while j < w
        invariant 0 <= j <= w
        invariant DoneUpTo(buf[..], dp, W, i, j)
        invariant forall k :: 0 <= k < buf.Length && !InExtent(k, dp, h) ==> buf[k] == old(buf[k])
        invariant forall k :: 0 <= k < buf.Length && !InWindow(k, dp, w, h) ==> buf[k] == old(buf[k])
      {
        AtInExtent(sp, w, h, i, j);
        AtInExtent(dp, w, h, i, j);
        AtInWindow(dp, w, h, i, j);
        assert buf[At(sp, i, j)] == M[i][j];
        ghost var s := buf[..];
        DoneStep(s, dp, W, w, h, i, j);
        var v := f * buf[At(sp, i, j)];
        assert v == W[i][j];
        buf[At(dp, i, j)] := v;
        assert buf[..] == s[At(dp, i, j) := v];
        j := j + 1;
      }
      DoneRow(buf[..], dp, W, w, h, i);
      i := i + 1;
    }
  }

  /** adm_csf: each detail band of dst becomes the matching band of src
      times 1 / factor1 (horizontal, vertical) or 1 / factor2 (diagonal)
      of the given scale. */
  method AdmCsf(buf: array<real>, src: Quartet, dst: Quartet, c: AdmConsts, scale: nat, w: nat, h: nat, ghost S: Detail)
    requires ValidConsts(c) && scale < 4
    requires IsDetail(S, w, h) && HoldsDetail(buf[..], src, S)
    requires DetailFits(src, w, h, buf.Length) && DetailFits(dst, w, h, buf.Length)
    requires DetailsApart(src, dst, h) && DetailDistinct(dst, h)
    modifies buf
    ensures HoldsDetail(buf[..], dst, Csf(S, w, h, c.factor1[scale], c.factor2[scale]))
    ensures forall k :: 0 <= k < buf.Length && !InDetail(k, dst, h) ==> buf[k] == old(buf[k])
    ensures forall k :: 0 <= k < buf.Length && !InDetailWindow(k, dst, w, h) ==> buf[k] == old(buf[k])
  {
    var factor1, factor2 := c.factor1[scale], c.factor2[scale];
    ghost var C := Csf(S, w, h, factor1, factor2);
    var theta := 0;
    while theta < 3
      invariant 0 <= theta <= 3
      invariant forall t :: 0 <= t < theta ==> Holds(buf[..], Angle(dst, t), Orient(C, t))
      invariant forall t :: 0 <= t < 3 ==> Holds(buf[..], Angle(src, t), Orient(S, t))
      invariant forall k :: 0 <= k < buf.Length && !InDetail(k, dst, h) ==> buf[k] == old(buf[k])
      invariant forall k :: 0 <= k < buf.Length && !InDetailWindow(k, dst, w, h) ==> buf[k] == old(buf[k])
    {
      ghost var before := buf[..];
      var sp, dp := Angle(src, theta), Angle(dst, theta);
      ScalePlane(buf, sp, dp, w, h, RFactor(factor1, factor2, theta), Orient(S, theta));
      assert Holds(buf[..], dp, Orient(C, theta));
      forall t | 0 <= t < theta
        ensures Holds(buf[..], Angle(dst, t), Orient(C, t))
      {
        HoldsApart(before, buf[..], Angle(dst, t), dp, Orient(C, t), w, h);
      }
      forall t | 0 <= t < 3
        ensures Holds(buf[..], Angle(src, t), Orient(S, t))
      {
        HoldsApart(before, buf[..], Angle(src, t), dp, Orient(S, t), w, h);
      }
      theta := theta + 1;
    }
    assert Holds(buf[..], Angle(dst, 0), Orient(C, 0));
    assert Holds(buf[..], Angle(dst, 1), Orient(C, 1));
    assert Holds(buf[..], Angle(dst, 2), Orient(C, 2));
  }

  // ---------------------------------------------------------------------
  // adm_dwt2
  // ---------------------------------------------------------------------

  predicate QuartetFits(q: Quartet, w: int, h: int, len: int)
  {
    Fits(q.a, w, h, len) && DetailFits(q, w, h, len)
  }

  /** No two bands of q overlap. */
  predicate QuartetDistinct(q: Quartet, h: int)
  {
    ApartFromDetail(q.a, q, h) && DetailDistinct(q, h)
  }

  predicate InQuartet(k: int, q: Quartet, h: int)
  {
    InExtent(k, q.a, h) || InDetail(k, q, h)
  }

  /** Index k lies among the first w samples of row i of some band of q. */
  predicate InQuartetRow(k: int, q: Quartet, i: int, w: int)
  {
    InRow(k, q.a, i, w) || InRow(k, q.h, i, w) || InRow(k, q.v, i, w) || InRow(k, q.d, i, w)
  }

  /** The hs-row extent of p overlaps no h-row band of q. */
  predicate DisjointFromQuartet(p: Plane, hs: int, q: Quartet, h: int)
  {
    Disjoint(p, hs, q.a, h) && Disjoint(p, hs, q.h, h) && Disjoint(p, hs, q.v, h) && Disjoint(p, hs, q.d, h)
  }

  ghost predicate HoldsQuad(s: seq<real>, q: Quartet, Q: Quad)
  {
    Holds(s, q.a, Q.a) && HoldsDetail(s, q, Q.det)
  }

  /** The decimated outputs of a whole line. */
  function DecRow(taps: seq<real>, xs: seq<real>): (r: seq<real>)
    requires |taps| == 4 && |xs| >= 2
    ensures |r| == Half(|xs|) && forall j :: 0 <= j < Half(|xs|) ==> r[j] == Decimate(taps, xs, j)
  {
    seq(Half(|xs|), j requires 0 <= j < Half(|xs|) => Decimate(taps, xs, j))
  }

  /** Vertical taps of adm_dwt2 for output row i, column j: both filters
      over the mirrored rows 2i - 1 .. 2i + 2 of the source. */
  method VertTaps(src: array<real>, sp: Plane, w: nat, h: nat, i: int, j: int,
                  lo: seq<real>, hi: seq<real>, ghost M: Matrix<real>)
    returns (sumLo: real, sumHi: real)
    requires |lo| == 4 && |hi| == 4 && IsMatrix(M, w, h) && Holds(src[..], sp, M)
    requires h >= 2 && 0 <= i < Half(h) && 0 <= j < w
    ensures sumLo == Decimate(lo, Column(M, j), i) && sumHi == Decimate(hi, Column(M, j), i)
  {
    ghost var col := Column(M, j);
    sumLo, sumHi := 0.0, 0.0;
    var fi := 0;
    while fi < 4
      invariant 0 <= fi <= 4
      invariant sumLo == TapSum(lo, col, i, fi) && sumHi == TapSum(hi, col, i, fi)
    {
      var si := 2 * i - 1 + fi;
      si := if si < 0 then -si else si;
      if si >= h {
        si := 2 * h - si - 1;
      }
      DwtTapInBounds(i, fi, h);
      assert si == Reflect(DwtTap(i, fi), h);
      var x := src[At(sp, si, j)];
      assert x == col[si];
      TapSumStep(lo, col, i, fi, x);
      TapSumStep(hi, col, i, fi, x);
      sumLo := sumLo + lo[fi] * x;
      sumHi := sumHi + hi[fi] * x;
      fi := fi + 1;
    }
  }

  /** Horizontal taps of adm_dwt2 for output column j of a filtered line. */
  method HorizTaps(temp: array<real>, w: nat, j: int, lo: seq<real>, hi: seq<real>, ghost xs: seq<real>)
    returns (sumLo: real, sumHi: real)
    requires |lo| == 4 && |hi| == 4 && |xs| == w >= 2 && temp.Length >= w
    requires forall c :: 0 <= c < w ==> temp[c] == xs[c]
    requires 0 <= j < Half(w)
    ensures sumLo == Decimate(lo, xs, j) && sumHi == Decimate(hi, xs, j)
  {
    sumLo, sumHi := 0.0, 0.0;
    var fj := 0;
    while fj < 4
      invariant 0 <= fj <= 4
      invariant sumLo == TapSum(lo, xs, j, fj) && sumHi == TapSum(hi, xs, j, fj)
    {
      var sj := 2 * j - 1 + fj;
      sj := if sj < 0 then -sj else sj;
      if sj >= w {
        sj := 2 * w - sj - 1;
      }
      DwtTapInBounds(j, fj, w);
      assert sj == Reflect(DwtTap(j, fj), w);
      var x := temp[sj];
      assert x == xs[sj];
      TapSumStep(lo, xs, j, fj, x);
      TapSumStep(hi, xs, j, fj, x);
      sumLo := sumLo + lo[fj] * x;
      sumHi := sumHi + hi[fj] * x;
      fj := fj + 1;
    }
  }

  /** One horizontal pass of adm_dwt2: row i of pLo and pHi receives the
      low and high outputs of the line held in temp. */
  method HorizontalPass(temp: array<real>, buf: array<real>, pLo: Plane, pHi: Plane, w: nat, h2: nat, i: int,
                        lo: seq<real>, hi: seq<real>, ghost xs: seq<real>)
    requires |lo| == 4 && |hi| == 4 && |xs| == w >= 2 && temp.Length >= w && temp != buf
    requires forall c :: 0 <= c < w ==> temp[c] == xs[c]
    requires 0 <= i < h2 && Fits(pLo, Half(w), h2, buf.Length) && Fits(pHi, Half(w), h2, buf.Length)
    requires Apart(pLo, pHi, h2)
    modifies buf
    ensures RowHolds(buf[..], pLo, i, 0, Half(w), DecRow(lo, xs))
    ensures RowHolds(buf[..], pHi, i, 0, Half(w), DecRow(hi, xs))
    ensures forall k :: 0 <= k < buf.Length && !InRow(k, pLo, i, Half(w)) && !InRow(k, pHi, i, Half(w)) ==>
      buf[k] == old(buf[k])
  {
    var w2 := Half(w);
    ghost var rLo, rHi := DecRow(lo, xs), DecRow(hi, xs);
    var j := 0;
    while j < w2
      invariant 0 <= j <= w2
      invariant RowHolds(buf[..], pLo, i, 0, j, rLo) && RowHolds(buf[..], pHi, i, 0, j, rHi)
      invariant forall k :: 0 <= k < buf.Length && !InRow(k, pLo, i, w2) && !InRow(k, pHi, i, w2) ==>
        buf[k] == old(buf[k])
    {
      var sumLo, sumHi := HorizTaps(temp, w, j, lo, hi, xs);
      AtInExtent(pLo, w2, h2, i, j);
      AtInExtent(pHi, w2, h2, i, j);
      ghost var s0 := buf[..];
      buf[At(pLo, i, j)] := sumLo;
      assert buf[..] == s0[At(pLo, i, j) := rLo[j]];
      RowStep(s0, pLo, i, j, rLo);
      RowKeptWrite(s0, pHi, w2, h2, i, j, rHi, At(pLo, i, j), sumLo);
      ghost var s1 := buf[..];
      buf[At(pHi, i, j)] := sumHi;
      assert buf[..] == s1[At(pHi, i, j) := rHi[j]];
      RowStep(s1, pHi, i, j, rHi);
      RowKeptWrite(s1, pLo, w2, h2, i, j + 1, rLo, At(pHi, i, j), sumHi);
      j := j + 1;
    }
  }

  /** One iteration of adm_dwt2's row loop: the vertical pass of output
      row i into the two line buffers, then the two horizontal passes. */
  method DwtRow(src: array<real>, sp: Plane, buf: array<real>, q: Quartet, tempLo: array<real>, tempHi: array<real>,
                w: nat, h: nat, i: int, lo: seq<real>, hi: seq<real>, ghost M: Matrix<real>)
    requires |lo| == 4 && |hi| == 4 && IsMatrix(M, w, h) && w >= 2 && h >= 2 && 0 <= i < Half(h)
    requires Holds(src[..], sp, M) && Fits(sp, w, h, src.Length)
    requires QuartetFits(q, Half(w), Half(h), buf.Length) && QuartetDistinct(q, Half(h))
    requires src == buf ==> DisjointFromQuartet(sp, h, q, Half(h))
    requires tempLo.Length >= w && tempHi.Length >= w && tempLo != tempHi
    requires tempLo != buf && tempHi != buf && src != tempLo && src != tempHi
    modifies buf, tempLo, tempHi
    ensures Holds(src[..], sp, M)
    ensures var Q := Dwt2(M, w, h, lo, hi);
      && RowHolds(buf[..], q.a, i, 0, Half(w), Q.a[i]) && RowHolds(buf[..], q.v, i, 0, Half(w), Q.det.v[i])
      && RowHolds(buf[..], q.h, i, 0, Half(w), Q.det.h[i]) && RowHolds(buf[..], q.d, i, 0, Half(w), Q.det.d[i])
    ensures forall k :: 0 <= k < buf.Length && !InQuartet(k, q, Half(h)) ==> buf[k] == old(buf[k])
    ensures forall k :: 0 <= k < buf.Length && InQuartet(k, q, Half(h)) && !InQuartetRow(k, q, i, Half(w)) ==>
      buf[k] == old(buf[k])
  {
    var j := 0;
    while j < w
      modifies tempLo, tempHi
      invariant 0 <= j <= w
      invariant forall c :: 0 <= c < j ==> tempLo[c] == VertPass(lo, M, w, h, i)[c] && tempHi[c] == VertPass(hi, M, w, h, i)[c]
    {
      var sumLo, sumHi := VertTaps(src, sp, w, h, i, j, lo, hi, M);
      tempLo[j] := sumLo;
      tempHi[j] := sumHi;
      j := j + 1;
    }
    ghost var xLo, xHi := VertPass(lo, M, w, h, i), VertPass(hi, M, w, h, i);
    var w2, h2 := Half(w), Half(h);
    RowInExtent(q.a, w2, h2, i);
    RowInExtent(q.h, w2, h2, i);
    RowInExtent(q.v, w2, h2, i);
    RowInExtent(q.d, w2, h2, i);
    ghost var s0 := buf[..];
    HorizontalPass(tempLo, buf, q.a, q.v, w, h2, i, lo, hi, xLo);
    ghost var s1 := buf[..];
    HorizontalPass(tempHi, buf, q.h, q.d, w, h2, i, lo, hi, xHi);
    RowFrame(s1, buf[..], q.a, w2, h2, i, DecRow(lo, xLo));
    RowFrame(s1, buf[..], q.v, w2, h2, i, DecRow(hi, xLo));
    ghost var Q := Dwt2(M, w, h, lo, hi);
    assert Q.a[i] == DecRow(lo, xLo);
    assert Q.det.v[i] == DecRow(hi, xLo);
    assert Q.det.h[i] == DecRow(lo, xHi);
    assert Q.det.d[i] == DecRow(hi, xHi);
    if src == buf {
      HoldsFrame(s0, buf[..], sp, M, w, h);
    }
  }

  /** adm_dwt2: one level of the separable 2-D wavelet transform. For each
      output row the vertical pass filters the source columns into the line
      buffers, and the two horizontal passes fill the approximation and
      vertical bands (from the low line) and the horizontal and diagonal
      bands (from the high line). Only the four bands change, and they end
      up holding the decomposition of the source window. */
  method AdmDwt2(src: array<real>, sp: Plane, buf: array<real>, q: Quartet, tempLo: array<real>, tempHi: array<real>,
                 w: nat, h: nat, lo: seq<real>, hi: seq<real>, ghost M: Matrix<real>)
    requires |lo| == 4 && |hi| == 4 && IsMatrix(M, w, h) && w >= 2 && h >= 2
    requires Holds(src[..], sp, M) && Fits(sp, w, h, src.Length)
    requires QuartetFits(q, Half(w), Half(h), buf.Length) && QuartetDistinct(q, Half(h))
    requires src == buf ==> DisjointFromQuartet(sp, h, q, Half(h))
    requires tempLo.Length >= w && tempHi.Length >= w && tempLo != tempHi
    requires tempLo != buf && tempHi != buf && src != tempLo && src != tempHi
    modifies buf, tempLo, tempHi
    ensures HoldsQuad(buf[..], q, Dwt2(M, w, h, lo, hi))
    ensures Holds(src[..], sp, M)
    ensures forall k :: 0 <= k < buf.Length && !InQuartet(k, q, Half(h)) ==> buf[k] == old(buf[k])
    ensures forall k :: 0 <= k < buf.Length && !InWindow(k, q.a, Half(w), Half(h)) && !InDetailWindow(k, q, Half(w), Half(h)) ==>
      buf[k] == old(buf[k])
  {
    ghost var Q := Dwt2(M, w, h, lo, hi);
    var w2, h2 := Half(w), Half(h);
    var i := 0;
    while i < h2
      invariant 0 <= i <= h2
      invariant Holds(src[..], sp, M)
      invariant DoneUpTo(buf[..], q.a, Q.a, i, 0) && DoneUpTo(buf[..], q.h, Q.det.h, i, 0)
      invariant DoneUpTo(buf[..], q.v, Q.det.v, i, 0) && DoneUpTo(buf[..], q.d, Q.det.d, i, 0)
      invariant i == h2 ==> HoldsQuad(buf[..], q, Q)
      invariant forall k :: 0 <= k < buf.Length && !InQuartet(k, q, h2) ==> buf[k] == old(buf[k])
      invariant forall k :: 0 <= k < buf.Length && !InWindow(k, q.a, w2, h2) && !InDetailWindow(k, q, w2, h2) ==>
        buf[k] == old(buf[k])
    {
      RowInExtent(q.a, w2, h2, i);
      RowInExtent(q.h, w2, h2, i);
      RowInExtent(q.v, w2, h2, i);
      RowInExtent(q.d, w2, h2, i);
      ghost var s0 := buf[..];
      DwtRow(src, sp, buf, q, tempLo, tempHi, w, h, i, lo, hi, M);
      DoneRowKept(s0, buf[..], q.a, Q.a, w2, h2, i);
      DoneRowKept(s0, buf[..], q.h, Q.det.h, w2, h2, i);
      DoneRowKept(s0, buf[..], q.v, Q.det.v, w2, h2, i);
      DoneRowKept(s0, buf[..], q.d, Q.det.d, w2, h2, i);
      RowComplete(buf[..], q.a, Q.a, w2, h2, i);
      RowComplete(buf[..], q.h, Q.det.h, w2, h2, i);
      RowComplete(buf[..], q.v, Q.det.v, w2, h2, i);
      RowComplete(buf[..], q.d, Q.det.d, w2, h2, i);
      i := i + 1;
    }
  }

  // ---------------------------------------------------------------------
  // adm_buffer_copy
  // ---------------------------------------------------------------------

  /** adm_buffer_copy: the w x h window of sp is copied line by line into
      dp; only dp's extent changes. */
  method AdmBufferCopy(buf: array<real>, sp: Plane, dp: Plane, w: nat, h: nat, ghost M: Matrix<real>)
    requires IsMatrix(M, w, h) && Fits(sp, w, h, buf.Length) && Fits(dp, w, h, buf.Length) && Apart(sp, dp, h)
    requires Holds(buf[..], sp, M)
    modifies buf
    ensures Holds(buf[..], dp, M)
    ensures forall k :: 0 <= k < buf.Length && !InExtent(k, dp, h) ==> buf[k] == old(buf[k])
    ensures forall k :: 0 <= k < buf.Length && !InWindow(k, dp, w, h) ==> buf[k] == old(buf[k])
  {
    var i := 0;
    while i < h
      invariant 0 <= i <= h
      invariant DoneUpTo(buf[..], dp, M, i, 0)
      invariant forall k :: 0 <= k < buf.Length && !InExtent(k, dp, h) ==> buf[k] == old(buf[k])
      invariant forall k :: 0 <= k < buf.Length && !InWindow(k, dp, w, h) ==> buf[k] == old(buf[k])
    {
      var j := 0;
      while j < w
        invariant 0 <= j <= w
        invariant DoneUpTo(buf[..], dp, M, i, j)
        invariant forall k :: 0 <= k < buf.Length && !InExtent(k, dp, h) ==> buf[k] == old(buf[k])
        invariant forall k :: 0 <= k < buf.Length && !InWindow(k, dp, w, h) ==> buf[k] == old(buf[k])
      {
        AtInExtent(sp, w, h, i, j);
        AtInExtent(dp, w, h, i, j);
        AtInWindow(dp, w, h, i, j);
        ghost var s := buf[..];
        DoneStep(s, dp, M, w, h, i, j);
        var v := buf[At(sp, i, j)];
        assert v == M[i][j];
        buf[At(dp, i, j)] := v;
        assert buf[..] == s[At(dp, i, j) := v];
        j := j + 1;
      }
      DoneRow(buf[..], dp, M, w, h, i);
      i := i + 1;
    }
  }

  // ---------------------------------------------------------------------
  // init_dwt_band and the work-buffer layout of compute_adm2
  // ---------------------------------------------------------------------

  /** init_dwt_band: four consecutive regions of bufSz samples for bands
      a, h, v and d, starting at dataTop; returns the next free offset. */
  function InitDwtBand(dataTop: nat, bufSz: nat, stride: nat): (r: (Quartet, nat))
    ensures r.0 == Quartet(Plane(dataTop, stride), Plane(dataTop + bufSz, stride),
                           Plane(dataTop + 2 * bufSz, stride), Plane(dataTop + 3 * bufSz, stride))
    ensures r.1 == dataTop + 4 * bufSz
  {
    var a := Plane(dataTop, stride);
    var top := dataTop + bufSz;
    var h := Plane(top, stride);
    var top := top + bufSz;
    var v := Plane(top, stride);
    var top := top + bufSz;
    var d := Plane(top, stride);
    var top := top + bufSz;
    (Quartet(a, h, v, d), top)
  }

  /** The carving of compute_adm2's work buffer into the planes of one level. */
  datatype Arena = Arena(refScale: Plane, mainScale: Plane,
                         refDwt2: Quartet, mainDwt2: Quartet, decoupleR: Quartet, decoupleA: Quartet,
                         csfO: Quartet, csfR: Quartet, csfA: Quartet, mta: Plane, cmR: Quartet,
                         end: nat)

  /** The carving as compute_adm2 performs it: two scale planes, seven
      quartets, the threshold plane and the masked quartet, each region
      bufSz long, in that order. Stepping dataTop through the carving puts
      the planes in regions 0 to 34, in declaration order, and ends after 35
      regions: the size of the allocation. */
  function AdmArena(bufSz: nat, stride: nat): (ar: Arena)
    ensures ar ==
      Arena(Region(0, bufSz, stride), Region(1, bufSz, stride),
            RegionQuartet(2, bufSz, stride), RegionQuartet(6, bufSz, stride),
            RegionQuartet(10, bufSz, stride), RegionQuartet(14, bufSz, stride),
            RegionQuartet(18, bufSz, stride), RegionQuartet(22, bufSz, stride),
            RegionQuartet(26, bufSz, stride), Region(30, bufSz, stride),
            RegionQuartet(31, bufSz, stride), 35 * bufSz)
  {
    var dataTop := 0;
    var refScale := Plane(dataTop, stride);
    var dataTop := dataTop + bufSz;
    var mainScale := Plane(dataTop, stride);
    var dataTop := dataTop + bufSz;
    var (refDwt2, dataTop) := InitDwtBand(dataTop, bufSz, stride);
    var (mainDwt2, dataTop) := InitDwtBand(dataTop, bufSz, stride);
    var (decoupleR, dataTop) := InitDwtBand(dataTop, bufSz, stride);
    var (decoupleA, dataTop) := InitDwtBand(dataTop, bufSz, stride);
    var (csfO, dataTop) := InitDwtBand(dataTop, bufSz, stride);
    var (csfR, dataTop) := InitDwtBand(dataTop, bufSz, stride);
    var (csfA, dataTop) := InitDwtBand(dataTop, bufSz, stride);
    var mta := Plane(dataTop, stride);
    var dataTop := dataTop + bufSz;
    var (cmR, dataTop) := InitDwtBand(dataTop, bufSz, stride);
    Arena(refScale, mainScale, refDwt2, mainDwt2, decoupleR, decoupleA, csfO, csfR, csfA, mta, cmR, dataTop)
  }

  /** Region r of the work buffer: the plane starting r regions in. */
  function Region(r: nat, bufSz: nat, stride: nat): Plane
  {
    Plane(r * bufSz, stride)
  }

  /** The quartet made of regions r .. r + 3. */
  function RegionQuartet(r: nat, bufSz: nat, stride: nat): Quartet
  {
    Quartet(Region(r, bufSz, stride), Region(r + 1, bufSz, stride), Region(r + 2, bufSz, stride), Region(r + 3, bufSz, stride))
  }

  /** Index k lies in regions lo .. hi - 1. */
  predicate InRegions(k: int, lo: nat, hi: nat, bufSz: nat)
  {
    lo * bufSz <= k < hi * bufSz
  }

  /** Region r's extent of h rows stays inside region r when it holds at
      most bufSz samples. */
  lemma RegionExtent(r: nat, bufSz: nat, stride: nat, h: nat)
    requires h * stride <= bufSz
    ensures forall k :: InExtent(k, Region(r, bufSz, stride), h) ==> InRegions(k, r, r + 1, bufSz)
  {
  }

  /** Regions r1 < r2 whose extents hold at most bufSz samples do not overlap. */
  lemma RegionPairApart(r1: nat, r2: nat, bufSz: nat, stride: nat, ha: nat, hb: nat)
    requires r1 < r2 && ha * stride <= bufSz && hb * stride <= bufSz
    ensures Disjoint(Region(r1, bufSz, stride), ha, Region(r2, bufSz, stride), hb)
    ensures Disjoint(Region(r2, bufSz, stride), ha, Region(r1, bufSz, stride), hb)
  {
    MulMono(r1 + 1, r2, bufSz);
  }

  /** The quartet in regions r .. r + 3 (r + 4 <= 35) fits in the
      allocation, its bands do not overlap, and its extents lie in those
      four regions. */
  lemma QuartetPlaced(r: nat, bufSz: nat, stride: nat, w: nat, h: nat, len: nat)
    requires r + 4 <= 35 && w <= stride && h * stride <= bufSz && 35 * bufSz <= len
    ensures QuartetFits(RegionQuartet(r, bufSz, stride), w, h, len)
    ensures QuartetDistinct(RegionQuartet(r, bufSz, stride), h)
    ensures forall k :: InQuartet(k, RegionQuartet(r, bufSz, stride), h) ==> InRegions(k, r, r + 4, bufSz)
  {
    MulMono(r + 4, 35, bufSz);
  }

  /** Changes confined to the detail bands of the quartet at r are
      confined to regions r .. r + 3. */
  lemma DetailFrameRegions(s1: seq<real>, s2: seq<real>, r: nat, bufSz: nat, stride: nat, h: nat)
    requires h * stride <= bufSz && |s1| == |s2|
    requires forall k :: 0 <= k < |s1| && !InDetail(k, RegionQuartet(r, bufSz, stride), h) ==> s1[k] == s2[k]
    ensures forall k :: 0 <= k < |s1| && !InRegions(k, r, r + 4, bufSz) ==> s1[k] == s2[k]
  {
    var a := r * bufSz;
    assert (r + 1) * bufSz == a + bufSz && (r + 2) * bufSz == a + 2 * bufSz;
    assert (r + 3) * bufSz == a + 3 * bufSz && (r + 4) * bufSz == a + 4 * bufSz;
  }

  /** Changes confined to the detail bands of the adjacent quartets at r
      and r + 4 are confined to regions r .. r + 7. */
  lemma DetailFrameRegions2(s1: seq<real>, s2: seq<real>, r: nat, bufSz: nat, stride: nat, h: nat)
    requires h * stride <= bufSz && |s1| == |s2|
    requires forall k :: 0 <= k < |s1| && !InDetail(k, RegionQuartet(r, bufSz, stride), h) && !InDetail(k, RegionQuartet(r + 4, bufSz, stride), h) ==>
      s1[k] == s2[k]
    ensures forall k :: 0 <= k < |s1| && !InRegions(k, r, r + 8, bufSz) ==> s1[k] == s2[k]
  {
    var a := r * bufSz;
    assert (r + 1) * bufSz == a + bufSz && (r + 2) * bufSz == a + 2 * bufSz;
    assert (r + 3) * bufSz == a + 3 * bufSz && (r + 4) * bufSz == a + 4 * bufSz;
    assert (r + 5) * bufSz == a + 5 * bufSz && (r + 6) * bufSz == a + 6 * bufSz;
    assert (r + 7) * bufSz == a + 7 * bufSz && (r + 8) * bufSz == a + 8 * bufSz;
  }

  /** The detail bands of the quartets at q1 and q2 (q1 + 4 <= q2) do not overlap. */
  lemma QuartetsApart(q1: nat, q2: nat, bufSz: nat, stride: nat, h: nat)
    requires q1 + 4 <= q2 && h * stride <= bufSz
    ensures DetailsApart(RegionQuartet(q1, bufSz, stride), RegionQuartet(q2, bufSz, stride), h)
    ensures DetailsApart(RegionQuartet(q2, bufSz, stride), RegionQuartet(q1, bufSz, stride), h)
  {
    MulMono(q1 + 4, q2, bufSz);
    var a, b := q1 * bufSz, q2 * bufSz;
    assert (q1 + 1) * bufSz == a + bufSz && (q1 + 2) * bufSz == a + 2 * bufSz;
    assert (q1 + 3) * bufSz == a + 3 * bufSz && (q1 + 4) * bufSz == a + 4 * bufSz;
    assert (q2 + 1) * bufSz == b + bufSz && (q2 + 2) * bufSz == b + 2 * bufSz;
    assert (q2 + 3) * bufSz == b + 3 * bufSz;
  }

  /** Plane r (r < 35) fits in the allocation and its extent lies in region r. */
  lemma PlanePlaced(r: nat, bufSz: nat, stride: nat, w: nat, h: nat, len: nat)
    requires r < 35 && w <= stride && h * stride <= bufSz && 35 * bufSz <= len
    ensures Fits(Region(r, bufSz, stride), w, h, len)
    ensures forall k :: InExtent(k, Region(r, bufSz, stride), h) ==> InRegions(k, r, r + 1, bufSz)
  {
    MulMono(r + 1, 35, bufSz);
  }

  /** Regions p (a plane of hp rows) and the quartet at q (bands of hq rows)
      do not overlap when p lies outside regions q .. q + 3. */
  lemma PlaneQuartetApart(p: nat, q: nat, bufSz: nat, stride: nat, hp: nat, hq: nat)
    requires (p < q || q + 4 <= p) && hp * stride <= bufSz && hq * stride <= bufSz
    ensures DisjointFromQuartet(Region(p, bufSz, stride), hp, RegionQuartet(q, bufSz, stride), hq)
  {
    var a, b := q * bufSz, p * bufSz;
    assert (q + 1) * bufSz == a + bufSz && (q + 2) * bufSz == a + 2 * bufSz && (q + 3) * bufSz == a + 3 * bufSz;
    if p < q {
      MulMono(p + 1, q, bufSz);
      assert (p + 1) * bufSz == b + bufSz;
    } else {
      MulMono(q + 4, p, bufSz);
      assert (q + 4) * bufSz == a + 4 * bufSz;
    }
  }

  /** A plane held in region r survives changes confined to regions lo .. hi - 1. */
  lemma RegionHoldsKept(s1: seq<real>, s2: seq<real>, r: nat, bufSz: nat, stride: nat, M: Matrix<real>,
                        w: nat, h: nat, lo: nat, hi: nat)
    requires Holds(s1, Region(r, bufSz, stride), M) && IsMatrix(M, w, h) && w <= stride && h * stride <= bufSz
    requires |s1| == |s2| && (r + 1 <= lo || hi <= r)
    requires forall k :: 0 <= k < |s1| && !InRegions(k, lo, hi, bufSz) ==> s1[k] == s2[k]
    ensures Holds(s2, Region(r, bufSz, stride), M)
  {
    if r + 1 <= lo {
      MulMono(r + 1, lo, bufSz);
    } else {
      MulMono(hi, r, bufSz);
    }
    HoldsFrame(s1, s2, Region(r, bufSz, stride), M, w, h);
  }

  /** The detail bands of the quartet in regions r .. r + 3 survive changes
      confined to regions lo .. hi - 1. */
  lemma DetailRegionKept(s1: seq<real>, s2: seq<real>, r: nat, bufSz: nat, stride: nat, D: Detail,
                         w: nat, h: nat, lo: nat, hi: nat)
    requires HoldsDetail(s1, RegionQuartet(r, bufSz, stride), D) && IsDetail(D, w, h)
    requires w <= stride && h * stride <= bufSz
    requires |s1| == |s2| && (r + 4 <= lo || hi <= r)
    requires forall k :: 0 <= k < |s1| && !InRegions(k, lo, hi, bufSz) ==> s1[k] == s2[k]
    ensures HoldsDetail(s2, RegionQuartet(r, bufSz, stride), D)
  {
    RegionHoldsKept(s1, s2, r + 1, bufSz, stride, D.h, w, h, lo, hi);
    RegionHoldsKept(s1, s2, r + 2, bufSz, stride, D.v, w, h, lo, hi);
    RegionHoldsKept(s1, s2, r + 3, bufSz, stride, D.d, w, h, lo, hi);
  }

  /** All four bands of the quartet in regions r .. r + 3 survive changes
      confined to regions lo .. hi - 1. */
  lemma QuadRegionKept(s1: seq<real>, s2: seq<real>, r: nat, bufSz: nat, stride: nat, Q: Quad,
                       w: nat, h: nat, lo: nat, hi: nat)
    requires HoldsQuad(s1, RegionQuartet(r, bufSz, stride), Q) && IsMatrix(Q.a, w, h) && IsDetail(Q.det, w, h)
    requires w <= stride && h * stride <= bufSz
    requires |s1| == |s2| && (r + 4 <= lo || hi <= r)
    requires forall k :: 0 <= k < |s1| && !InRegions(k, lo, hi, bufSz) ==> s1[k] == s2[k]
    ensures HoldsQuad(s2, RegionQuartet(r, bufSz, stride), Q)
  {
    RegionHoldsKept(s1, s2, r, bufSz, stride, Q.a, w, h, lo, hi);
    DetailRegionKept(s1, s2, r, bufSz, stride, Q.det, w, h, lo, hi);
  }

  // ---------------------------------------------------------------------
  // compute_adm2
  // ---------------------------------------------------------------------

  /** The two adm_dwt2 calls of one level: the reference and the distorted
      pictures of this level are decomposed into ref_dwt2 and main_dwt2.
      At level 0 the pictures are the caller's; later they are ref_scale
      and main_scale inside the work buffer. */
  method DecomposeLevel(curRef: array<real>, rp: Plane, curMain: array<real>, mp: Plane, buf: array<real>,
                        bufSz: nat, stride: nat, tempLo: array<real>, tempHi: array<real>,
                        w: nat, h: nat, lo: seq<real>, hi: seq<real>, ghost R: Matrix<real>, ghost D: Matrix<real>)
    requires |lo| == 4 && |hi| == 4 && w >= 2 && h >= 2 && IsMatrix(R, w, h) && IsMatrix(D, w, h)
    requires Holds(curRef[..], rp, R) && Fits(rp, w, h, curRef.Length)
    requires Holds(curMain[..], mp, D) && Fits(mp, w, h, curMain.Length)
    requires buf.Length >= 35 * bufSz && Half(w) <= stride && Half(h) * stride <= bufSz
    requires curRef == buf ==> rp == Region(0, bufSz, stride) && h * stride <= bufSz
    requires curMain == buf ==> mp == Region(1, bufSz, stride) && h * stride <= bufSz
    requires tempLo.Length >= w && tempHi.Length >= w && tempLo != tempHi && tempLo != buf && tempHi != buf
    requires curRef != tempLo && curRef != tempHi && curMain != tempLo && curMain != tempHi
    modifies buf, tempLo, tempHi
    ensures HoldsQuad(buf[..], AdmArena(bufSz, stride).refDwt2, Dwt2(R, w, h, lo, hi))
    ensures HoldsQuad(buf[..], AdmArena(bufSz, stride).mainDwt2, Dwt2(D, w, h, lo, hi))
    ensures forall k :: 0 <= k < buf.Length && !InRegions(k, 2, 10, bufSz) ==> buf[k] == old(buf[k])
  {
    var ar := AdmArena(bufSz, stride);
    var h2 := Half(h);
    QuartetPlaced(2, bufSz, stride, Half(w), h2, buf.Length);
    QuartetPlaced(6, bufSz, stride, Half(w), h2, buf.Length);
    if curRef == buf {
      PlaneQuartetApart(0, 2, bufSz, stride, h, h2);
    }
    if curMain == buf {
      PlaneQuartetApart(1, 6, bufSz, stride, h, h2);
    }
    ghost var s0 := buf[..];
    AdmDwt2(curRef, rp, buf, ar.refDwt2, tempLo, tempHi, w, h, lo, hi, R);
    ghost var s1 := buf[..];
    if curMain == buf {
      RegionHoldsKept(s0, s1, 1, bufSz, stride, D, w, h, 2, 6);
    }
    AdmDwt2(curMain, mp, buf, ar.mainDwt2, tempLo, tempHi, w, h, lo, hi, D);
    QuadRegionKept(s1, buf[..], 2, bufSz, stride, Dwt2(R, w, h, lo, hi), Half(w), h2, 6, 10);
  }

  /** Decoupling and contrast sensitivity weighting of one level:
      decouple_r and decouple_a from ref_dwt2 and main_dwt2, then csf_o,
      csf_r and csf_a from ref_dwt2, decouple_r and decouple_a. */
  method WeighLevel(buf: array<real>, bufSz: nat, stride: nat, w: nat, h: nat, c: AdmConsts, scale: nat,
                    ghost O: Detail, ghost T: Detail)
    requires ValidConsts(c) && scale < 4 && IsDetail(O, w, h) && IsDetail(T, w, h)
    requires buf.Length >= 35 * bufSz && w <= stride && h * stride <= bufSz
    requires HoldsDetail(buf[..], AdmArena(bufSz, stride).refDwt2, O)
    requires HoldsDetail(buf[..], AdmArena(bufSz, stride).mainDwt2, T)
    modifies buf
    ensures HoldsDetail(buf[..], AdmArena(bufSz, stride).decoupleR, DecoupleR(O, T, w, h))
    ensures HoldsDetail(buf[..], AdmArena(bufSz, stride).decoupleA, DecoupleA(O, T, w, h))
    ensures var f1, f2 := c.factor1[scale], c.factor2[scale];
      && HoldsDetail(buf[..], AdmArena(bufSz, stride).csfO, Csf(O, w, h, f1, f2))
      && HoldsDetail(buf[..], AdmArena(bufSz, stride).csfR, Csf(DecoupleR(O, T, w, h), w, h, f1, f2))
      && HoldsDetail(buf[..], AdmArena(bufSz, stride).csfA, Csf(DecoupleA(O, T, w, h), w, h, f1, f2))
    ensures forall k :: 0 <= k < buf.Length && !InRegions(k, 10, 30, bufSz) ==> buf[k] == old(buf[k])
  {
    var ar := AdmArena(bufSz, stride);
    var f1, f2 := c.factor1[scale], c.factor2[scale];
    ghost var DR, DA := DecoupleR(O, T, w, h), DecoupleA(O, T, w, h);
    QuartetPlaced(2, bufSz, stride, w, h, buf.Length);
    QuartetPlaced(6, bufSz, stride, w, h, buf.Length);
    QuartetPlaced(10, bufSz, stride, w, h, buf.Length);
    QuartetPlaced(14, bufSz, stride, w, h, buf.Length);
    QuartetPlaced(18, bufSz, stride, w, h, buf.Length);
    QuartetPlaced(22, bufSz, stride, w, h, buf.Length);
    QuartetPlaced(26, bufSz, stride, w, h, buf.Length);
    QuartetsApart(2, 10, bufSz, stride, h);
    QuartetsApart(2, 14, bufSz, stride, h);
    QuartetsApart(6, 10, bufSz, stride, h);
    QuartetsApart(6, 14, bufSz, stride, h);
    QuartetsApart(10, 14, bufSz, stride, h);
    ghost var s0 := buf[..];
    AdmDecouple(buf, ar.refDwt2, ar.mainDwt2, ar.decoupleR, ar.decoupleA, w, h, O, T);
    ghost var s1 := buf[..];
    DetailFrameRegions2(s0, s1, 10, bufSz, stride, h);
    DetailRegionKept(s0, s1, 2, bufSz, stride, O, w, h, 10, 18);
    QuartetsApart(2, 18, bufSz, stride, h);
    AdmCsf(buf, ar.refDwt2, ar.csfO, c, scale, w, h, O);
    ghost var s2 := buf[..];
    DetailFrameRegions(s1, s2, 18, bufSz, stride, h);
    DetailRegionKept(s1, s2, 10, bufSz, stride, DR, w, h, 18, 22);
    DetailRegionKept(s1, s2, 14, bufSz, stride, DA, w, h, 18, 22);
    QuartetsApart(10, 22, bufSz, stride, h);
    AdmCsf(buf, ar.decoupleR, ar.csfR, c, scale, w, h, DR);
    ghost var s3 := buf[..];
    DetailFrameRegions(s2, s3, 22, bufSz, stride, h);
    DetailRegionKept(s2, s3, 14, bufSz, stride, DA, w, h, 22, 26);
    DetailRegionKept(s2, s3, 18, bufSz, stride, Csf(O, w, h, f1, f2), w, h, 22, 26);
    QuartetsApart(14, 26, bufSz, stride, h);
    AdmCsf(buf, ar.decoupleA, ar.csfA, c, scale, w, h, DA);
    DetailFrameRegions(s3, buf[..], 26, bufSz, stride, h);
    DetailRegionKept(s3, buf[..], 18, bufSz, stride, Csf(O, w, h, f1, f2), w, h, 26, 30);
    DetailRegionKept(s3, buf[..], 22, bufSz, stride, Csf(DR, w, h, f1, f2), w, h, 26, 30);
    DetailRegionKept(s2, s3, 10, bufSz, stride, DR, w, h, 22, 26);
    DetailRegionKept(s3, buf[..], 10, bufSz, stride, DR, w, h, 26, 30);
    DetailRegionKept(s3, buf[..], 14, bufSz, stride, DA, w, h, 26, 30);
  }

  /** Masking of one level: adm_cm_thresh builds mta from csf_a, then
      adm_cm builds cm_r from csf_r and mta. */
  method MaskLevel(buf: array<real>, bufSz: nat, stride: nat, w: nat, h: nat, ghost CR: Detail, ghost CA: Detail)
    requires IsDetail(CR, w, h) && IsDetail(CA, w, h)
    requires buf.Length >= 35 * bufSz && w <= stride && h * stride <= bufSz
    requires HoldsDetail(buf[..], AdmArena(bufSz, stride).csfR, CR)
    requires HoldsDetail(buf[..], AdmArena(bufSz, stride).csfA, CA)
    modifies buf
    ensures HoldsDetail(buf[..], AdmArena(bufSz, stride).cmR, Cm(CR, Thresh(CA, w, h), w, h))
    ensures forall k :: 0 <= k < buf.Length && !InRegions(k, 30, 35, bufSz) ==> buf[k] == old(buf[k])
  {
    var ar := AdmArena(bufSz, stride);
    QuartetPlaced(22, bufSz, stride, w, h, buf.Length);
    QuartetPlaced(26, bufSz, stride, w, h, buf.Length);
    QuartetPlaced(31, bufSz, stride, w, h, buf.Length);
    PlanePlaced(30, bufSz, stride, w, h, buf.Length);
    PlaneQuartetApart(30, 26, bufSz, stride, h, h);
    PlaneQuartetApart(30, 31, bufSz, stride, h, h);
    QuartetsApart(22, 31, bufSz, stride, h);
    ghost var s0 := buf[..];
    AdmCmThresh(buf, ar.csfA, ar.mta, w, h, CA);
    ghost var s1 := buf[..];
    DetailRegionKept(s0, s1, 22, bufSz, stride, CR, w, h, 30, 31);
    AdmCm(buf, ar.csfR, ar.cmR, ar.mta, w, h, CR, Thresh(CA, w, h));
    DetailFrameRegions(s1, buf[..], 31, bufSz, stride, h);
  }

  /** The six adm_sum_cube calls of one level: the numerator pools the
      masked bands cm_r, the denominator the weighted reference bands
      csf_o, each starting from 0 and adding h, v, d in that order. */
  method PoolLevel(buf: array<real>, bufSz: nat, stride: nat, w: nat, h: nat, c: AdmConsts,
                   ghost CM: Detail, ghost CO: Detail)
    returns (numScale: real, denScale: real)
    requires ValidConsts(c) && IsDetail(CM, w, h) && IsDetail(CO, w, h)
    requires HoldsDetail(buf[..], AdmArena(bufSz, stride).cmR, CM)
    requires HoldsDetail(buf[..], AdmArena(bufSz, stride).csfO, CO)
    ensures numScale == PoolDetail(CM, w, h, c) && denScale == PoolDetail(CO, w, h, c)
  {
    var ar := AdmArena(bufSz, stride);
    var bf, cubeRoot := c.borderFactor, c.cubeRoot;
    numScale, denScale := 0.0, 0.0;
    var p := AdmSumCube(buf, ar.cmR.h, w, h, bf, cubeRoot, CM.h);
    numScale := numScale + p;
    p := AdmSumCube(buf, ar.cmR.v, w, h, bf, cubeRoot, CM.v);
    numScale := numScale + p;
    p := AdmSumCube(buf, ar.cmR.d, w, h, bf, cubeRoot, CM.d);
    numScale := numScale + p;
    p := AdmSumCube(buf, ar.csfO.h, w, h, bf, cubeRoot, CO.h);
    denScale := denScale + p;
    p := AdmSumCube(buf, ar.csfO.v, w, h, bf, cubeRoot, CO.v);
    denScale := denScale + p;
    p := AdmSumCube(buf, ar.csfO.d, w, h, bf, cubeRoot, CO.d);
    denScale := denScale + p;
  }

  /** The body of compute_adm2's scale loop for one level: decompose both
      pictures, decouple, weight, mask, pool, and copy the approximation
      bands into ref_scale and main_scale for the next level. */
  method ScaleStep(curRef: array<real>, rp: Plane, curMain: array<real>, mp: Plane, buf: array<real>,
                   ar: Arena, bufSz: nat, stride: nat, tempLo: array<real>, tempHi: array<real>,
                   w: nat, h: nat, c: AdmConsts, scale: nat, ghost R: Matrix<real>, ghost D: Matrix<real>)
    returns (numScale: real, denScale: real)
    requires ar == AdmArena(bufSz, stride)
    requires ValidConsts(c) && scale < 4 && w >= 2 && h >= 2 && IsMatrix(R, w, h) && IsMatrix(D, w, h)
    requires Holds(curRef[..], rp, R) && Fits(rp, w, h, curRef.Length)
    requires Holds(curMain[..], mp, D) && Fits(mp, w, h, curMain.Length)
    requires buf.Length >= 35 * bufSz && Half(w) <= stride && Half(h) * stride <= bufSz
    requires curRef == buf ==> rp == ar.refScale && h * stride <= bufSz
    requires curMain == buf ==> mp == ar.mainScale && h * stride <= bufSz
    requires tempLo.Length >= w && tempHi.Length >= w && tempLo != tempHi && tempLo != buf && tempHi != buf
    requires curRef != tempLo && curRef != tempHi && curMain != tempLo && curMain != tempHi
    modifies buf, tempLo, tempHi
    ensures numScale == AdmLevel(R, D, w, h, c, scale).num && denScale == AdmLevel(R, D, w, h, c, scale).den
    ensures Holds(buf[..], ar.refScale, Dwt2(R, w, h, c.lo, c.hi).a)
    ensures Holds(buf[..], ar.mainScale, Dwt2(D, w, h, c.lo, c.hi).a)
  {
    ghost var Qr, Qd := Dwt2(R, w, h, c.lo, c.hi), Dwt2(D, w, h, c.lo, c.hi);
    DecomposeLevel(curRef, rp, curMain, mp, buf, bufSz, stride, tempLo, tempHi, w, h, c.lo, c.hi, R, D);

    var w2, h2 := Half(w), Half(h);
    ghost var f1, f2 := c.factor1[scale], c.factor2[scale];
    ghost var s1 := buf[..];
    WeighLevel(buf, bufSz, stride, w2, h2, c, scale, Qr.det, Qd.det);
    ghost var s2 := buf[..];
    RegionHoldsKept(s1, s2, 2, bufSz, stride, Qr.a, w2, h2, 10, 30);
    RegionHoldsKept(s1, s2, 6, bufSz, stride, Qd.a, w2, h2, 10, 30);
    ghost var co := Csf(Qr.det, w2, h2, f1, f2);
    ghost var cr := Csf(DecoupleR(Qr.det, Qd.det, w2, h2), w2, h2, f1, f2);
    ghost var ca := Csf(DecoupleA(Qr.det, Qd.det, w2, h2), w2, h2, f1, f2);

    MaskLevel(buf, bufSz, stride, w2, h2, cr, ca);
    ghost var s3 := buf[..];
    RegionHoldsKept(s2, s3, 2, bufSz, stride, Qr.a, w2, h2, 30, 35);
    RegionHoldsKept(s2, s3, 6, bufSz, stride, Qd.a, w2, h2, 30, 35);
    DetailRegionKept(s2, s3, 18, bufSz, stride, co, w2, h2, 30, 35);

    numScale, denScale := PoolLevel(buf, bufSz, stride, w2, h2, c, Cm(cr, Thresh(ca, w2, h2), w2, h2), co);
    assert AdmLevel(R, D, w, h, c, scale) == LevelOut(numScale, denScale);

    PlanePlaced(0, bufSz, stride, w2, h2, buf.Length);
    PlanePlaced(1, bufSz, stride, w2, h2, buf.Length);
    PlanePlaced(2, bufSz, stride, w2, h2, buf.Length);
    PlanePlaced(6, bufSz, stride, w2, h2, buf.Length);
    RegionPairApart(0, 2, bufSz, stride, h2, h2);
    RegionPairApart(1, 6, bufSz, stride, h2, h2);
    AdmBufferCopy(buf, ar.refDwt2.a, ar.refScale, w2, h2, Qr.a);
    ghost var s4 := buf[..];
    RegionHoldsKept(s3, s4, 6, bufSz, stride, Qd.a, w2, h2, 0, 1);
    AdmBufferCopy(buf, ar.mainDwt2.a, ar.mainScale, w2, h2, Qd.a);
    RegionHoldsKept(s4, buf[..], 0, bufSz, stride, Qr.a, w2, h2, 1, 2);
  }

  /** buf_stride in floats: a half-width row of 4-byte floats, rounded up
      to the 32-byte alignment. */
  function BandStride(w: nat): (s: nat)
    ensures Half(w) <= s && 4 * s == AlignCeil(Half(w) * 4)
  {
    AlignCeilIsLeastMultiple(Half(w) * 4);
    AlignCeil(Half(w) * 4) / 4
  }

  /** buf_sz in floats: buf_stride times the half height. */
  function RegionSize(w: nat, h: nat): (r: nat)
    ensures 4 * r == AlignCeil(Half(w) * 4) * Half(h)
    ensures Half(w) * Half(h) <= r
  {
    ScaledRows(BandStride(w), Half(w), Half(h));
    BandStride(w) * Half(h)
  }

  /** n rows of stride s >= m hold n rows of m samples, and four times
      them is n rows of 4 s bytes. */
  lemma ScaledRows(s: nat, m: nat, n: nat)
    requires m <= s
    ensures m * n <= s * n && 4 * (s * n) == (4 * s) * n
  {
    assert s * n - m * n == (s - m) * n;
  }

  /** Size of compute_adm2's work buffer in samples: 35 regions of buf_sz. */
  function AdmBufSamples(w: nat, h: nat): (r: nat)
    ensures 4 * r == 35 * (AlignCeil(Half(w) * 4) * Half(h))
    ensures 35 * (Half(w) * Half(h)) <= r
  {
    35 * RegionSize(w, h)
  }

  /** A level of height h <= h0 fits a region sized for h0: its half-height
      bands always, and the level's inputs too once h is at most half of h0. */
  lemma RoomForLevel(h: nat, h0: nat, sz: nat, stride: nat)
    requires h <= h0 && sz == stride * Half(h0)
    ensures Half(h) * stride <= sz
    ensures h <= Half(h0) ==> h * stride <= sz
  {
    HalfMono(h, h0);
    MulMono(Half(h), Half(h0), stride);
    if h <= Half(h0) {
      MulMono(h, Half(h0), stride);
    }
  }

  /** Advancing a pyramid by one level: its pair is ls[k], and the
      approximation bands are the inputs of level k + 1. */
  lemma NextPyramid(R: Matrix<real>, D: Matrix<real>, w: nat, h: nat, c: AdmConsts, k: nat, ls: seq<(real, real)>)
    requires ValidConsts(c) && PyramidAt(R, D, w, h, c, k, ls) && k < 4
    ensures var lv := AdmLevel(R, D, w, h, c, k);
      var q, qd := Dwt2(R, w, h, c.lo, c.hi), Dwt2(D, w, h, c.lo, c.hi);
      && ls[k] == (lv.num, lv.den)
      && PyramidAt(q.a, qd.a, Half(w), Half(h), c, k + 1, ls)
  {
    AdvanceLevels(R, D, w, h, c, k, ls);
  }

  /** Adding level k's pair to the totals of levels 0 .. k - 1 gives the
      totals of levels 0 .. k, and the approximation bands carry the
      pyramid to level k + 1. */
  lemma LevelTotals(R: Matrix<real>, D: Matrix<real>, w: nat, h: nat, c: AdmConsts, k: nat, ls: seq<(real, real)>,
                    num: real, den: real, numScale: real, denScale: real)
    requires ValidConsts(c) && PyramidAt(R, D, w, h, c, k, ls) && k < 4
    requires numScale == AdmLevel(R, D, w, h, c, k).num && denScale == AdmLevel(R, D, w, h, c, k).den
    requires num == Total(ls, k, false) && den == Total(ls, k, true)
    ensures ls[k] == (numScale, denScale)
    ensures num + numScale == Total(ls, k + 1, false) && den + denScale == Total(ls, k + 1, true)
    ensures PyramidAt(Dwt2(R, w, h, c.lo, c.hi).a, Dwt2(D, w, h, c.lo, c.hi).a, Half(w), Half(h), c, k + 1, ls)
  {
    NextPyramid(R, D, w, h, c, k, ls);
  }

  /** scores[2 * scale] and scores[2 * scale + 1] receive level scale's
      numerator and denominator, which extends the breakdown of the levels
      before it by that level's pair. */
  method RecordLevel(scores: array<real>, scale: nat, numScale: real, denScale: real, ghost ls: seq<(real, real)>)
    requires scores.Length == 8 && scale < 4 && |ls| == 4 && ls[scale] == (numScale, denScale)
    requires scores[..2 * scale] == Breakdown(ls[..scale])
    modifies scores
    ensures scores[..2 * scale + 2] == Breakdown(ls[..scale + 1])
  {
    ghost var before := scores[..];
    scores[2 * scale] := numScale;
    scores[2 * scale + 1] := denScale;
    assert scores[..2 * scale + 2] == before[..2 * scale] + [numScale, denScale];
    assert ls[..scale + 1] == ls[..scale] + [ls[scale]];
    BreakdownSnoc(ls[..scale], ls[scale]);
  }

  /** One pass of the scale loop at level scale, reading inputs R and D of
      w x h samples: with ls the model's four level pairs, the level's pair
      is ls[scale] and goes to scores[2 * scale] and scores[2 * scale + 1],
      and ref_scale and main_scale receive the approximation bands from
      which the model computes the remaining levels. */
  method LevelIteration(curRef: array<real>, rp: Plane, curMain: array<real>, mp: Plane,
                        scores: array<real>, buf: array<real>, ar: Arena, sz: nat, stride: nat,
                        tempLo: array<real>, tempHi: array<real>, w: nat, h: nat, c: AdmConsts, scale: nat,
                        ghost R: Matrix<real>, ghost D: Matrix<real>, ghost ls: seq<(real, real)>,
                        num: real, den: real, ghost w0: nat, ghost h0: nat)
    returns (num': real, den': real, ghost nextR: Matrix<real>, ghost nextD: Matrix<real>)
    requires ValidConsts(c) && PyramidAt(R, D, w, h, c, scale, ls) && scale < 4
    requires ar == AdmArena(sz, stride) && buf.Length >= 35 * sz && sz == stride * Half(h0)
    requires Half(w0) <= stride && w <= w0 && h <= h0
    requires Holds(curRef[..], rp, R) && Holds(curMain[..], mp, D)
    requires curRef == buf ==> rp == ar.refScale && w <= Half(w0) && h <= Half(h0)
    requires curMain == buf ==> mp == ar.mainScale && w <= Half(w0) && h <= Half(h0)
    requires curRef != buf ==> Fits(rp, w, h, curRef.Length)
    requires curMain != buf ==> Fits(mp, w, h, curMain.Length)
    requires tempLo.Length >= w && tempHi.Length >= w && tempLo != tempHi && tempLo != buf && tempHi != buf
    requires curRef != tempLo && curRef != tempHi && curMain != tempLo && curMain != tempHi
    requires scores.Length == 8 && scores != curRef && scores != curMain && scores != buf && scores != tempLo && scores != tempHi
    requires scores[..2 * scale] == Breakdown(ls[..scale])
    requires num == Total(ls, scale, false) && den == Total(ls, scale, true)
    modifies scores, buf, tempLo, tempHi
    ensures num' == Total(ls, scale + 1, false) && den' == Total(ls, scale + 1, true)
    ensures PyramidAt(nextR, nextD, Half(w), Half(h), c, scale + 1, ls)
    ensures Holds(buf[..], ar.refScale, nextR) && Holds(buf[..], ar.mainScale, nextD)
    ensures scores[..2 * scale + 2] == Breakdown(ls[..scale + 1])
  {
    RoomForLevel(h, h0, sz, stride);
    HalfMono(w, w0);
    if curRef == buf {
      PlanePlaced(0, sz, stride, w, h, buf.Length);
    }
    if curMain == buf {
      PlanePlaced(1, sz, stride, w, h, buf.Length);
    }
    var numScale, denScale := ScaleStep(curRef, rp, curMain, mp, buf, ar, sz, stride,
                                    tempLo, tempHi, w, h, c, scale, R, D);
    LevelTotals(R, D, w, h, c, scale, ls, num, den, numScale, denScale);
    nextR, nextD := Dwt2(R, w, h, c.lo, c.hi).a, Dwt2(D, w, h, c.lo, c.hi).a;
    num', den' := num + numScale, den + denScale;
    RecordLevel(scores, scale, numScale, denScale, ls);
  }

  /** The scale loop of compute_adm2: level 0 reads the input pictures,
      every later level the approximation bands the previous one copied to
      ref_scale and main_scale; each level's numerator and denominator go
      to scores[2 * scale] and scores[2 * scale + 1] and into the totals. */
  method ScaleLoop(ref: array<real>, main: array<real>, w: nat, h: nat, refStride: nat, mainStride: nat,
                   scores: array<real>, buf: array<real>, ar: Arena, sz: nat, stride: nat,
                   tempLo: array<real>, tempHi: array<real>,
                   c: AdmConsts, ghost R: Matrix<real>, ghost D: Matrix<real>)
    returns (num: real, den: real, ghost ls: seq<(real, real)>)
    requires ValidConsts(c) && w >= 9 && h >= 9 && IsMatrix(R, w, h) && IsMatrix(D, w, h)
    requires Holds(ref[..], Plane(0, refStride), R) && Fits(Plane(0, refStride), w, h, ref.Length)
    requires Holds(main[..], Plane(0, mainStride), D) && Fits(Plane(0, mainStride), w, h, main.Length)
    requires ar == AdmArena(sz, stride) && Half(w) <= stride && sz == stride * Half(h) && buf.Length >= 35 * sz
    requires scores.Length == 8 && tempLo.Length >= w && tempHi.Length >= w
    requires buf != tempLo && buf != tempHi && tempLo != tempHi
    requires ref != buf && ref != tempLo && ref != tempHi && main != buf && main != tempLo && main != tempHi
    requires scores != ref && scores != main && scores != buf && scores != tempLo && scores != tempHi
    modifies scores, buf, tempLo, tempHi
    ensures ls == AdmLevels(R, D, w, h, c)
    ensures num == Total(ls, 4, false) && den == Total(ls, 4, true)
    ensures scores[..] == Breakdown(ls)
  {
    var curRef, curRefPlane, curMain, curMainPlane := ref, Plane(0, refStride), main, Plane(0, mainStride);
    var curW: nat, curH: nat := w, h;
    ghost var Rk, Dk := R, D;
    num, den := 0.0, 0.0;
    ls := AdmLevels(R, D, w, h, c);
    FourLevelsFitIff(w);
    FourLevelsFitIff(h);

    var scale := 0;
    while scale < 4
      invariant 0 <= scale <= 4
      invariant PyramidAt(Rk, Dk, curW, curH, c, scale, ls)
      invariant scale == 0 ==> curRef == ref && curRefPlane == Plane(0, refStride) && curW == w && curH == h
      invariant scale == 0 ==> curMain == main && curMainPlane == Plane(0, mainStride)
      invariant scale > 0 ==> curRef == buf && curRefPlane == ar.refScale && curW <= Half(w) && curH <= Half(h)
      invariant scale > 0 ==> curMain == buf && curMainPlane == ar.mainScale
      invariant Holds(curRef[..], curRefPlane, Rk) && Holds(curMain[..], curMainPlane, Dk)
      invariant num == Total(ls, scale, false) && den == Total(ls, scale, true)
      invariant scores[..2 * scale] == Breakdown(ls[..scale])
    {
      num, den, Rk, Dk := LevelIteration(curRef, curRefPlane, curMain, curMainPlane, scores, buf, ar, sz, stride,
                                         tempLo, tempHi, curW, curH, c, scale, Rk, Dk, ls, num, den, w, h);
      HalfMono(curW, w);
      HalfMono(curH, h);
      curW, curH := Half(curW), Half(curH);
      curRef, curRefPlane, curMain, curMainPlane := buf, ar.refScale, buf, ar.mainScale;
      scale := scale + 1;
    }
    WholeBreakdown(scores[..], ls);
  }

  /** compute_adm2: four levels of decomposition, decoupling, weighting,
      masking and pooling; the per-level numerators and denominators go to
      scores in level order, their sums are floored at the area-scaled
      noise limit, and the score is their ratio, or 1 when the floored
      denominator is zero. Always returns 0. */
  method ComputeAdm2(ref: array<real>, main: array<real>, w: nat, h: nat, refStride: nat, mainStride: nat,
                     scores: array<real>, buf: array<real>, tempLo: array<real>, tempHi: array<real>,
                     c: AdmConsts, ghost R: Matrix<real>, ghost D: Matrix<real>)
    returns (score: real, scoreNum: real, scoreDen: real, ret: int)
    requires ValidConsts(c) && w >= 9 && h >= 9 && IsMatrix(R, w, h) && IsMatrix(D, w, h)
    requires Holds(ref[..], Plane(0, refStride), R) && Fits(Plane(0, refStride), w, h, ref.Length)
    requires Holds(main[..], Plane(0, mainStride), D) && Fits(Plane(0, mainStride), w, h, main.Length)
    requires scores.Length == 8 && buf.Length >= AdmBufSamples(w, h) && tempLo.Length >= w && tempHi.Length >= w
    requires buf != tempLo && buf != tempHi && tempLo != tempHi
    requires ref != buf && ref != tempLo && ref != tempHi && main != buf && main != tempLo && main != tempHi
    requires scores != ref && scores != main && scores != buf && scores != tempLo && scores != tempHi
    modifies scores, buf, tempLo, tempHi
    ensures var res := AdmScore(R, D, w, h, c);
      score == res.score && scoreNum == res.num && scoreDen == res.den && scores[..] == res.scores
    ensures ret == 0
  {
    var numdenLimit := 1e-2 * (w * h) as real / (1920.0 * 1080.0);
    assert numdenLimit == NumDenLimit(w, h);

    var stride := BandStride(w);
    var sz := RegionSize(w, h);
    var ar := AdmArena(sz, stride);

    var num, den, ls := ScaleLoop(ref, main, w, h, refStride, mainStride, scores, buf, ar, sz, stride,
                                  tempLo, tempHi, c, R, D);

    ghost var res := Summarise(ls, w, h);
    assert res.num == ZeroBelow(num, numdenLimit) && res.den == ZeroBelow(den, numdenLimit);
    num := if num < numdenLimit then 0.0 else num;
    den := if den < numdenLimit then 0.0 else den;
    if den == 0.0 {
      score := 1.0;
    } else {
      score := num / den;
    }
    scoreNum, scoreDen := num, den;
    ret := 0;
  }
}
