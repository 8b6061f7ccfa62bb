# ADM and ANSNR kernels of libavfilter, modelled in Dafny

This project models the two full-reference video-quality kernels of
`libavfilter/vf_adm.c` and `libavfilter/vf_ansnr.c` and proves what they
compute.

- **ADM (detail loss).** `compute_adm2` runs four pyramid levels over a
  reference and a distorted picture. At each level it does the following:
  - a mirror-bounded, 2x-decimating 4-tap wavelet (`adm_dwt2`);
  - a split of the distorted detail into restored and impairment parts
    (`adm_decouple`);
  - contrast-sensitivity weighting (`adm_csf`);
  - a 3x3 masking threshold (`adm_cm_thresh`) and rectification against it
    (`adm_cm`);
  - border-excluded cube pooling (`adm_sum_cube`).

  The approximation band is copied forward to the next level
  (`adm_buffer_copy`). The per-level numerators and denominators are recorded.
  Their totals are floored at an area-scaled noise limit, and the score is
  their ratio.
- **ANSNR.** `compute_ansnr` smooths the reference with a 3x3 kernel and the
  distorted picture with a 5x5 kernel (`ansnr_filter2d`, mirror-bounded, with
  samples offset by -128). It sums signal and noise over the two filtered
  planes (`ansnr_mse`) and derives a noise-ratio score and a capped PSNR.
  `do_ansnr` picks the peak and the cap from the pixel format and keeps a
  frame count and a running score sum.

Layout of the project:

- `layout.dfy` (module `Layout`): the pieces both filters share.
  - `ALIGN_CEIL`;
  - ceil-halving of dimensions;
  - strided plane views `Plane(off, stride)` into flat buffers;
  - the two mirror rules at image borders.
- `adm_model.dfy` (module `AdmModel`) and `ansnr_model.dfy` (module
  `AnsnrModel`): reference definitions on matrices of samples, and the
  properties proved about them.
- `adm.dfy` (module `Adm`) and `ansnr.dfy` (module `Ansnr`): the C routines
  as imperative methods over `array<real>` work buffers, with the same loops
  and arena carving. The index arithmetic is the source's, except that
  `ansnr_filter2d` reads 10-bit frames with the corrected stride in samples
  of the Findings table (see "## Left out"). Each is proved to leave the reference
  values in the w x h windows of its destination planes. What else may
  change is stated at three grains:
  - the plane-level routines (`AdmDwt2`, `AdmDecouple`, `AdmCsf`,
    `AdmCmThresh`, `AdmCm`, `AdmBufferCopy`, `ScalePlane`, `AnsnrFilter2d`)
    change no sample outside those windows, the padding past w in each row
    included;
  - the per-level ADM steps (`DecomposeLevel`, `WeighLevel`, `MaskLevel`)
    change only their own arena regions, and `FilterPlanes` and
    `ComputeAnsnr` only the windows of `ref_filtr` and `dis_filtd`;
  - the ADM driver (`ScaleStep`, `LevelIteration`, `ScaleLoop`,
    `ComputeAdm2`) states its results, not a frame over the work buffer.

Samples are `real` and division is exact. Tables and transcendental
functions whose definitions lie outside the two files are parameters:
- the wavelet taps;
- the contrast-sensitivity factors;
- the border factor;
- the cube root;
- `log10`.

## Model

| member | source | states |
|---|---|---|
| Layout.AlignCeil | libavfilter/vf_adm.c:60-61 | ALIGN_CEIL(x) is a multiple of 32, at least x and below x + 32 |
| Layout.AlignCeilIsLeastMultiple | libavfilter/vf_adm.c:60-61 | no multiple of 32 that is at least x is smaller than ALIGN_CEIL(x) |
| Layout.Half | libavfilter/vf_adm.c:502-503 | the halved dimension (n + 1) / 2 satisfies n <= 2r <= n + 1 |
| Layout.HalfMono | libavfilter/vf_adm.c:502-503 | halving preserves order between dimensions |
| Layout.FourLevelsFitIff | libavfilter/vf_adm.c:493-503 | every one of four successive halvings of n leaves at least 2 samples exactly when n >= 9 |
| Layout.Reflect | libavfilter/vf_adm.c:332-337 | an index already inside [0, n) is kept, and for n >= 2 every raw index in [-1, n + 1] lands in [0, n) |
| Layout.WaveletReflectInBoundsIff | libavfilter/vf_adm.c:332-337 | the absolute-value-then-reflect rule maps every raw index in [-1, n + 1] into [0, n) if and only if n >= 2 |
| Layout.MaskReflectInBounds | libavfilter/vf_adm.c:250-260 | the masking window's raw indices in [-1, n] reflect into [0, n) for every n >= 1 |
| Layout.ReflectOnce | libavfilter/vf_ansnr.c:147-153 | an index already inside [0, n) is kept, and every index in (-n, 2n) lands in [0, n) |
| Layout.ReflectOnceInBounds | libavfilter/vf_ansnr.c:147-153 | a kernel tap i - fwidth/2 + fi around an in-bounds sample reflects into [0, n) once n > fwidth / 2 |
| Layout.ReflectOnceInBoundsIff | libavfilter/vf_ansnr.c:147-153 | the negate-or-reflect rule keeps every tap of a width-fw kernel in [0, n) if and only if n > fw / 2 |
| Layout.WindowInExtent | libavfilter/vf_ansnr.c:166 | every sample of a plane's w x h window lies in the plane's extent of h rows |
| AdmModel.DwtTapInBounds | libavfilter/vf_adm.c:332-337 | each of the four taps 2i - 1 + t of a decimated output i < (n + 1) / 2 reflects inside a line of n >= 2 samples |
| AdmModel.TapSumFlat | libavfilter/vf_adm.c:328-342 | on a flat line, the first k taps accumulate to the line's value times the sum of those k taps |
| AdmModel.DecimateFlat | libavfilter/vf_adm.c:324-346 | a flat line comes out scaled by the sum of the four taps at every output, the mirrored border outputs included |
| AdmModel.VertPass | libavfilter/vf_adm.c:324-347 | output row i of the vertical pass has w entries, and entry c is column c filtered by the taps and decimated at i |
| AdmModel.Dwt2Band | libavfilter/vf_adm.c:322-399 | a subband is ((w + 1) / 2) x ((h + 1) / 2), and its cell (i, j) is the horizontal decimation of row i of the vertical pass |
| AdmModel.Dwt2 | libavfilter/vf_adm.c:307-402 | the four bands of one decomposition each have the halved dimensions |
| AdmModel.Clamp01 | libavfilter/vf_adm.c:154-158 | the gain clamp lies in [0, 1]; it keeps values inside [0, 1], maps negatives to 0 and values above 1 to 1 |
| AdmModel.Gain | libavfilter/vf_adm.c:150-158 | each gain lies in [0, 1] and equals t / (o + eps) whenever that quotient is already in [0, 1] |
| AdmModel.ScaledTowardZero | libavfilter/vf_adm.c:160-162 | scaling by a gain in [0, 1] moves a coefficient toward zero without changing its sign |
| AdmModel.AngleFlag | libavfilter/vf_adm.c:164-167 | identical reference and distorted coefficients always pass the one-degree angle test |
| AdmModel.Shrunk | libavfilter/vf_adm.c:150-162 | each gain-scaled reference coefficient lies between 0 and the coefficient: it moves toward zero and keeps its sign |
| AdmModel.Restored | libavfilter/vf_adm.c:160-175 | the restored triple is either the distorted triple as a whole or, in every orientation, the reference shrunk toward zero; identical inputs restore the distorted values |
| AdmModel.Impaired | libavfilter/vf_adm.c:177-183 | restored + impairment = distorted in each orientation, and identical inputs have zero impairment |
| AdmModel.DecoupleBand | libavfilter/vf_adm.c:141-185 | every cell of a restored or impairment band is the decoupling rule applied to that cell's reference and distorted triple |
| AdmModel.DecoupleR | libavfilter/vf_adm.c:141-179 | the restored bands have the dimensions of their inputs |
| AdmModel.DecoupleA | libavfilter/vf_adm.c:141-183 | the impairment bands have the dimensions of their inputs |
| AdmModel.DecoupleIdentical | libavfilter/vf_adm.c:164-183 | decoupling a band set from itself restores it whole and leaves a zero impairment |
| AdmModel.Weighted | libavfilter/vf_adm.c:211-216 | every weighted sample is the factor times the source sample |
| AdmModel.Csf | libavfilter/vf_adm.c:201-216 | weighting keeps the bands' dimensions |
| AdmModel.RFactor | libavfilter/vf_adm.c:201-203 | rfactor[theta] is positive; for h and v (theta 0, 1) it is the reciprocal of factor1, for d (theta 2) that of factor2 |
| AdmModel.CsfOfZeros | libavfilter/vf_adm.c:211-216 | weighting zero bands gives zero bands |
| AdmModel.MaskCoeff | libavfilter/vf_adm.c:247-248 | every masking weight is positive (1/15 at the centre, 1/30 elsewhere) |
| AdmModel.Thresh | libavfilter/vf_adm.c:220-271 | the threshold plane has the band dimensions, and each cell is the weighted window sum accumulated over the three orientations |
| AdmModel.MaskRow | libavfilter/vf_adm.c:245-264 | a row of the weighted window sum of absolute values is never negative |
| AdmModel.MaskSum | libavfilter/vf_adm.c:243-265 | the whole 3x3 weighted window sum is never negative |
| AdmModel.ThreshPartial | libavfilter/vf_adm.c:239-267 | the threshold is never negative after any number of orientation passes |
| AdmModel.ThreshOfZeros | libavfilter/vf_adm.c:233-267 | a zero impairment gives a zero threshold everywhere |
| AdmModel.MaskRowZero | libavfilter/vf_adm.c:245-264 | a window row over zero bands sums to zero |
| AdmModel.ThreshPartialZero | libavfilter/vf_adm.c:239-267 | the partial threshold over zero bands stays zero |
| AdmModel.CmCell | libavfilter/vf_adm.c:292-298 | the rectified value is >= 0, equals either 0 or \|x\| - thr, and is at most \|x\| when thr >= 0 |
| AdmModel.Masked | libavfilter/vf_adm.c:285-304 | each masked cell is the rectification of the source cell against the threshold cell at the same place |
| AdmModel.Cm | libavfilter/vf_adm.c:273-305 | masking keeps the bands' dimensions |
| AdmModel.UnmaskedPool | libavfilter/vf_adm.c:292-298 | with a zero threshold, masking changes no magnitude, so the pooled value is unchanged |
| AdmModel.Trunc | libavfilter/vf_adm.c:101-102 | the conversion to int truncates: the floor for non-negative values, never negative above -1, and within 1 of its argument |
| AdmModel.Border | libavfilter/vf_adm.c:101-102 | the border margin trunc(n * bf - 0.5) is never negative for bf >= 0 |
| AdmModel.PoolWindow | libavfilter/vf_adm.c:101-104 | the pooling window lies inside the band, and its width and height are w - 2 left and h - 2 top |
| AdmModel.CubeRow | libavfilter/vf_adm.c:112-115 | a row's sum of cubed magnitudes is >= 0 |
| AdmModel.CubeRows | libavfilter/vf_adm.c:111-116 | the window's sum of cubed magnitudes is >= 0 |
| AdmModel.CubeSum | libavfilter/vf_adm.c:109-116 | the cube sum over the pooling window is >= 0 |
| AdmModel.Pool | libavfilter/vf_adm.c:97-120 | the pooled value is the cube root of the window's cube sum plus the cube root of a thirty-second of (h - 2 top)(w - 2 left), the area left once the border is cut off both sides of both axes |
| AdmModel.CubeRowAbs | libavfilter/vf_adm.c:113-114 | rows with equal magnitudes have equal cube sums |
| AdmModel.CubeRowsAbs | libavfilter/vf_adm.c:111-116 | bands with equal magnitudes have equal windowed cube sums |
| AdmModel.PoolAbs | libavfilter/vf_adm.c:97-120 | pooling reads only magnitudes: bands with equal absolute values pool equally |
| AdmModel.PoolDetailSplit | libavfilter/vf_adm.c:515-521 | a level's num_scale or den_scale (PoolDetail) is the cube roots of the h, v and d cube sums plus three times the area term, since the three bands share one pooling window |
| AdmModel.PoolDetailAbs | libavfilter/vf_adm.c:515-521 | a level's pooled total depends only on the magnitudes of the three detail bands |
| AdmModel.AdmLevel | libavfilter/vf_adm.c:497-521 | a level scored against itself has its masked numerator equal to its reference denominator |
| AdmModel.LevelsFrom | libavfilter/vf_adm.c:493-538 | levels k .. 3 produce 4 - k (numerator, denominator) pairs |
| AdmModel.LevelsAt | libavfilter/vf_adm.c:493-538 | an existing level k contributes its own pair, followed by the pairs of its approximation bands |
| AdmModel.AdmLevels | libavfilter/vf_adm.c:493-538 | inputs of at least 9 x 9 give exactly four level pairs |
| AdmModel.AdvanceLevels | libavfilter/vf_adm.c:526-534 | entry k of the level list is level k's own pair, and the rest come from its approximation bands at halved dimensions |
| AdmModel.Total | libavfilter/vf_adm.c:523-524 | the running total over levels with non-negative numerators and denominators is never negative |
| AdmModel.TotalOfFour | libavfilter/vf_adm.c:523-524 | the totals are the sums of the four per-level numerators and denominators, added in level order from 0 |
| AdmModel.NumDenLimit | libavfilter/vf_adm.c:436 | the noise floor is never negative, and is 1e-2 for a 1920 x 1080 picture |
| AdmModel.ZeroBelow | libavfilter/vf_adm.c:540-541 | a total is kept, or zeroed only when below the limit; a non-zero result is never below the limit |
| AdmModel.Breakdown | libavfilter/vf_adm.c:536-537 | the breakdown holds two entries per level |
| AdmModel.BreakdownSnoc | libavfilter/vf_adm.c:536-537 | recording one more level appends its numerator and denominator |
| AdmModel.BreakdownAt | libavfilter/vf_adm.c:536-537 | scores[2k] is level k's numerator and scores[2k + 1] its denominator |
| AdmModel.Summarise | libavfilter/vf_adm.c:536-549 | the breakdown is left as is; the totals are zeroed below 1e-2 w h / (1920 * 1080); the score is 1.0 when the floored denominator is 0 and num / den otherwise |
| AdmModel.LevelsFromIdentical | libavfilter/vf_adm.c:493-538 | scored against itself, every remaining level has numerator = denominator |
| AdmModel.BalancedScoresOne | libavfilter/vf_adm.c:540-547 | levels with numerator = denominator give equal floored totals and a score of 1.0 |
| AdmModel.AdmScore | libavfilter/vf_adm.c:431-554 | a picture scored against an exact copy of itself scores 1.0, with num = den |
| AdmModel.BorderHalf | libavfilter/vf_adm.c:101-104 | with a border factor of at most 0.5 the two margins of an axis fit in it: 2 * border <= n |
| AdmModel.PoolNonneg | libavfilter/vf_adm.c:97-120 | when the cube root keeps non-negative values non-negative, the pooled value is >= 0 |
| AdmModel.PoolDetailNonneg | libavfilter/vf_adm.c:515-521 | a level's num_scale or den_scale, the sum of three pooled bands, is >= 0 |
| AdmModel.AdmLevelNonneg | libavfilter/vf_adm.c:493-521 | with a border factor of at most 0.5 and a cube root that keeps non-negative values non-negative, each level's numerator and denominator is >= 0, whatever the two pictures |
| AdmModel.LevelsFromNonneg | libavfilter/vf_adm.c:492-538 | with a border factor of at most 0.5 and a cube root that keeps non-negative values non-negative, every level pair from level k on is non-negative, by induction over the levels |
| AdmModel.SummariseNonneg | libavfilter/vf_adm.c:523-550 | from non-negative level pairs, the eight scores entries, the floored totals and the score are all >= 0 |
| AdmModel.AdmScoreNonneg | libavfilter/vf_adm.c:431-554 | for any two pictures, with a border factor of at most 0.5 and a cube root that keeps non-negative values non-negative, every scores entry, score_num and score_den are >= 0, and so is the score |
| Adm.StoreCell | libavfilter/vf_adm.c:177-183 | the three orientation stores for cell (i, j) change only those three samples |
| Adm.DecoupleCell | libavfilter/vf_adm.c:143-183 | one cell of r and a receives the restored and impairment values, and only r's and a's detail bands change |
| Adm.DecoupleRow | libavfilter/vf_adm.c:142-184 | row i of r and a is complete, the inputs are intact, and nothing outside r's and a's detail bands changes |
| Adm.AdmDecouple | libavfilter/vf_adm.c:122-186 | r holds the restored bands and a the impairment bands of ref against main; no sample outside the w x h windows of r's and a's detail bands changes, row padding included |
| Adm.AdmSumCube | libavfilter/vf_adm.c:97-120 | the returned value is the cube-root pooling of the band over the border-excluded window |
| Adm.ThreshRow | libavfilter/vf_adm.c:239-269 | row i of the threshold after t orientations has w cells, each the partial threshold |
| Adm.MaskRowStep | libavfilter/vf_adm.c:246-263 | one more tap adds its weight times the magnitude of the mirrored sample |
| Adm.MaskWindowRow | libavfilter/vf_adm.c:246-264 | the filt_j loop computes one row of the weighted window sum |
| Adm.MaskWindow | libavfilter/vf_adm.c:243-265 | the filt_i loop computes the whole weighted 3x3 window sum around (i, j) |
| Adm.ThreshAccumulate | libavfilter/vf_adm.c:239-268 | one orientation pass adds its window sums to row i of the threshold, and changes nothing else |
| Adm.ZeroRow | libavfilter/vf_adm.c:235-237 | the first w samples of row i become zero, and nothing else changes |
| Adm.ThreshRowPass | libavfilter/vf_adm.c:233-270 | row i of dst holds the full three-orientation threshold, and nothing outside that row changes |
| Adm.AdmCmThresh | libavfilter/vf_adm.c:220-271 | dst holds the masking threshold of src's bands, and no sample outside dst's w x h window changes, row padding included |
| Adm.CmAt | libavfilter/vf_adm.c:287-302 | cell (i, j) of dst's bands receives the rectified values |
| Adm.AdmCm | libavfilter/vf_adm.c:273-305 | dst's detail bands hold max(0, \|x\| - thr) for every cell, and no sample outside their w x h windows changes, row padding included |
| Adm.ScalePlane | libavfilter/vf_adm.c:211-216 | dp holds f times sp's samples, and no sample outside dp's w x h window changes |
| Adm.AdmCsf | libavfilter/vf_adm.c:188-218 | dst's h and v bands hold src's times 1/factor1, its d band src's times 1/factor2; no sample outside the w x h windows of dst's detail bands changes, row padding included |
| Adm.DecRow | libavfilter/vf_adm.c:350-373 | a horizontal pass yields (w + 1) / 2 outputs, each the decimated filter at that index |
| Adm.VertTaps | libavfilter/vf_adm.c:325-346 | sum_lo and sum_hi are both filters over the four mirrored source rows of column j |
| Adm.HorizTaps | libavfilter/vf_adm.c:351-369 | sum_lo and sum_hi are both filters over the four mirrored samples of the line buffer |
| Adm.HorizontalPass | libavfilter/vf_adm.c:350-373 | row i of the two destination bands receives the low and high outputs of the line, and nothing else changes |
| Adm.DwtRow | libavfilter/vf_adm.c:322-400 | one output row of all four bands is written, and no other row of the quartet changes |
| Adm.AdmDwt2 | libavfilter/vf_adm.c:307-402 | the quartet holds the four bands of the decomposition, the source is intact, and no sample outside the bands' (w + 1) / 2 x (h + 1) / 2 windows changes, row padding included |
| Adm.AdmBufferCopy | libavfilter/vf_adm.c:404-416 | dp holds sp's w x h window, and no sample outside dp's w x h window changes, row padding included |
| Adm.InitDwtBand | libavfilter/vf_adm.c:418-429 | bands a, h, v and d take four back-to-back regions of buf_sz starting at data_top, with the shared stride, and the returned top is 4 buf_sz further on |
| Adm.AdmArena | libavfilter/vf_adm.c:473-491 | walking data_top through the carving puts ref_scale, main_scale, seven quartets, mta and cm_r in regions 0 to 34, in that order, and ends after 35 regions, the size of the buf_sz * 35 allocation |
| Adm.RegionPairApart | libavfilter/vf_adm.c:473-491 | two distinct regions do not overlap |
| Adm.QuartetPlaced | libavfilter/vf_adm.c:418-429 | a quartet made by init_dwt_band fits the allocation, its four bands do not overlap, and it stays in its four regions |
| Adm.QuartetsApart | libavfilter/vf_adm.c:480-491 | the detail bands of two different quartets do not overlap |
| Adm.PlanePlaced | libavfilter/vf_adm.c:475-489 | a single-plane region fits the allocation and stays inside its region |
| Adm.PlaneQuartetApart | libavfilter/vf_adm.c:475-491 | a plane outside a quartet's regions does not overlap its detail bands |
| Adm.BandStride | libavfilter/vf_adm.c:464 | buf_stride, counted in floats, is at least (w + 1) / 2, and four times it is ALIGN_CEIL of the half-width row in bytes |
| Adm.RegionSize | libavfilter/vf_adm.c:464-465 | buf_sz in floats: four times it is ALIGN_CEIL of the half-width row in bytes times the half height, and it holds a half-width, half-height plane |
| Adm.AdmBufSamples | libavfilter/vf_adm.c:690-698 | the buf_sz * 35-byte allocation, counted in floats, is 35 regions of buf_sz and holds 35 half-width, half-height planes |
| Adm.RoomForLevel | libavfilter/vf_adm.c:464-465 | every level's half-height bands, and its inputs from level 1 on, fit in a buf_sz region |
| Adm.DecomposeLevel | libavfilter/vf_adm.c:497-500 | ref_dwt2 and main_dwt2 hold the decompositions of the level's two pictures, and only regions 2 to 9 change |
| Adm.WeighLevel | libavfilter/vf_adm.c:505-510 | decouple_r, decouple_a, csf_o, csf_r and csf_a hold their model values, and only regions 10 to 29 change |
| Adm.MaskLevel | libavfilter/vf_adm.c:512-513 | cm_r holds the restored bands masked by the threshold of the weighted impairment, and only regions 30 to 34 change |
| Adm.PoolLevel | libavfilter/vf_adm.c:515-521 | num_scale pools cm_r and den_scale pools csf_o, each adding h, v and d in that order |
| Adm.ScaleStep | libavfilter/vf_adm.c:494-534 | one level yields its model numerator and denominator, and leaves the approximation bands in ref_scale and main_scale |
| Adm.NextPyramid | libavfilter/vf_adm.c:526-534 | after a level, its pair is entry k of the level list, and the approximation bands are the inputs of level k + 1 |
| Adm.RecordLevel | libavfilter/vf_adm.c:536-537 | writing scores[2 scale] and scores[2 scale + 1] extends the breakdown by this level's pair |
| Adm.LevelIteration | libavfilter/vf_adm.c:493-538 | one loop pass adds level scale to the running totals and the breakdown, and leaves the next level's inputs in place |
| Adm.ScaleLoop | libavfilter/vf_adm.c:493-538 | after four levels, num and den are the level totals and scores is the breakdown in level order |
| Adm.ComputeAdm2 | libavfilter/vf_adm.c:431-554 | score, score_num, score_den and scores equal the model's floored totals, score and breakdown for the two pictures, and the result is 0 |
| AnsnrModel.KernelRow | libavfilter/vf_ansnr.c:145 | kernel row fi holds the fwidth coefficients f[fi * fwidth + fj] |
| AnsnrModel.KernelOf | libavfilter/vf_ansnr.c:55-68 | a row-major fwidth x fwidth table is an fwidth x fwidth matrix of its rows |
| AnsnrModel.Centred | libavfilter/vf_ansnr.c:146-157 | imgcoeff is the tap's own sample plus the -128 offset whenever the tap lies inside the picture, and zero on a picture of all 128 |
| AnsnrModel.Window | libavfilter/vf_ansnr.c:146-157 | kernel row fi reads fwidth mirrored samples, each offset by -128 |
| AnsnrModel.Cell | libavfilter/vf_ansnr.c:139-163 | accum after any number of kernel rows is zero on a picture of all 128, whatever the kernel |
| AnsnrModel.Filter2d | libavfilter/vf_ansnr.c:137-166 | the filtered image is w x h, and each cell is the sum over kernel rows of the row coefficients against their mirrored, offset samples |
| AnsnrModel.RefKernelNormalised | libavfilter/vf_ansnr.c:57-61 | the 3x3 reference kernel's weights sum to 1 |
| AnsnrModel.DisKernelNormalised | libavfilter/vf_ansnr.c:62-68 | the 5x5 distorted-image kernel's weights sum to 1 |
| AnsnrModel.DisRowWeight | libavfilter/vf_ansnr.c:62-68 | a row of the 5x5 kernel weighs the sum of its five table entries |
| AnsnrModel.ConstantCellScaled | libavfilter/vf_ansnr.c:141-163 | filtering a constant picture gives the kernel's weight times the constant |
| AnsnrModel.FlatCell | libavfilter/vf_ansnr.c:141-163 | on a flat picture every mirrored window is constant, so a cell's sum depends only on the kernel |
| AnsnrModel.FlatFilter | libavfilter/vf_ansnr.c:137-166 | a normalised kernel maps a flat picture of value c to the flat plane c - 128 |
| AnsnrModel.FlatFiltersToCentred | libavfilter/vf_ansnr.c:196-199 | both kernels map a flat picture of value c to the flat plane c - 128 |
| AnsnrModel.SqFacts | libavfilter/vf_ansnr.c:76-79 | pow_2 is never negative, and is positive for non-zero arguments |
| AnsnrModel.RowSignal | libavfilter/vf_ansnr.c:94-100 | a row's signal sum is >= 0 |
| AnsnrModel.RowNoise | libavfilter/vf_ansnr.c:94-101 | a row's noise sum is >= 0 |
| AnsnrModel.Signal | libavfilter/vf_ansnr.c:94-103 | signal_sum is >= 0 |
| AnsnrModel.Noise | libavfilter/vf_ansnr.c:94-103 | noise_sum is >= 0 |
| AnsnrModel.RowNoiseZeroIff | libavfilter/vf_ansnr.c:101 | a row's noise is zero if and only if the two rows agree |
| AnsnrModel.NoiseZeroIffRows | libavfilter/vf_ansnr.c:94-103 | the noise over the first n rows is zero if and only if those rows agree |
| AnsnrModel.NoiseZeroIff | libavfilter/vf_ansnr.c:94-103 | the noise between two filtered planes is zero if and only if the planes are equal |
| AnsnrModel.AnsnrScore | libavfilter/vf_ansnr.c:204 | with zero noise the score is psnr_max |
| AnsnrModel.PsnrDivisorPositive | libavfilter/vf_ansnr.c:206-208 | the PSNR divisor max(noise, 1e-10) is positive |
| AnsnrModel.PsnrScore | libavfilter/vf_ansnr.c:206-209 | score_psnr is at most psnr_max, and is either psnr_max or 10 log10(peak^2 w h / max(noise, 1e-10)) |
| AnsnrModel.AnsnrOfSums | libavfilter/vf_ansnr.c:196-209 | the two scores of a pair of pictures follow from the signal and noise of their filtered planes |
| AnsnrModel.AnsnrOf | libavfilter/vf_ansnr.c:172-213 | score_psnr is at most psnr_max, and two pictures whose filtered planes agree score psnr_max |
| AnsnrModel.FlatEqualScoresMax | libavfilter/vf_ansnr.c:196-204 | two flat pictures of the same value filter to equal planes, so the noise is zero and the score is psnr_max |
| AnsnrModel.PeakAndCap | libavfilter/vf_ansnr.c:225-236 | a peak and a cap are chosen exactly for the six formats the filter negotiates; any other name leaves them unset |
| AnsnrModel.PeakMatchesBitDepth | libavfilter/vf_ansnr.c:225-236 | for every accepted format, peak x 2^(bits - 8) = 2^bits - 1 (255 for 8-bit, 255.75 for 10-bit), the sample width is the bytes the depth needs, and the cap is 60 for 8-bit and 72 for 10-bit |
| AnsnrModel.StrideAsWrittenOverreads | libavfilter/vf_ansnr.c:131 | with src_stride / sizeof(sz), a 16 x 3 10-bit frame (tall enough for the 5x5 kernel) has its sample (2, 15) read at index 79, past the frame's 48 samples; the stride in samples gives 47 |
| AnsnrModel.SrcPxStrideAsWritten | libavfilter/vf_ansnr.c:131 | as written, the stride in samples equals the stride in bytes, whatever the sample width |
| AnsnrModel.SrcPxStride | libavfilter/vf_ansnr.c:131 | the corrected stride is the number of whole samples in a row: r sz <= src_stride < (r + 1) sz |
| AnsnrModel.SrcPxStrideFits | libavfilter/vf_ansnr.c:246 | with rows of ALIGN_CEIL(w * sz) bytes, the stride in samples is at least w, and h such rows hold every sample the filter reads |
| Ansnr.KernelRowSum | libavfilter/vf_ansnr.c:143-160 | accum_inner is kernel row fi against the mirrored, offset samples it covers |
| Ansnr.FilterCell | libavfilter/vf_ansnr.c:139-163 | accum is the filtered value of cell (i, j) |
| Ansnr.FilterRow | libavfilter/vf_ansnr.c:138-167 | row i of dst receives its filtered values, and nothing outside that row's w samples changes |
| Ansnr.AnsnrFilter2d | libavfilter/vf_ansnr.c:113-170 | dst's w x h window holds the filtered image, and no other dst sample, padding included, changes |
| Ansnr.AnsnrMse | libavfilter/vf_ansnr.c:81-110 | the signal and noise outputs are the sums over the two planes, each delivered only when requested |
| Ansnr.BufStride | libavfilter/vf_ansnr.c:186 | buf_stride is a multiple of 32 bytes, at least 4 w and below 4 w + 32 |
| Ansnr.PxStride | libavfilter/vf_ansnr.c:186 | buf_stride in floats is at least w and exactly a quarter of the byte stride |
| Ansnr.BufSzOne | libavfilter/vf_ansnr.c:186-187 | buf_sz_one, h rows of buf_stride bytes, is a multiple of 32 and holds at least the 4 w h bytes of a float plane |
| Ansnr.AnsnrBufSamples | libavfilter/vf_ansnr.c:318-325 | the 3 * buf_sz_one-byte allocation, counted in floats, holds at least three w x h planes |
| Ansnr.AnsnrArena | libavfilter/vf_ansnr.c:186-194 | ref_filtr starts at data_buf and dis_filtd buf_sz_one bytes later, both with buf_stride / 4 floats per row, and data_top ends at 2 * buf_sz_one |
| Ansnr.AnsnrArenaLayout | libavfilter/vf_ansnr.c:186-194 | ref_filtr and dis_filtd start on 32-byte boundaries, do not overlap, both fit their w x h windows in the 3 * buf_sz_one allocation, and data_top stays within it |
| Ansnr.FilterPlanes | libavfilter/vf_ansnr.c:196-199 | ref_filtr holds the 3x3-filtered reference and dis_filtd the 5x5-filtered distorted picture, and no work-buffer sample outside those two w x h windows changes |
| Ansnr.ComputeAnsnr | libavfilter/vf_ansnr.c:172-213 | score and score_psnr equal the model's scores of the two pictures, score_psnr is at most psnr_max, the result is 0, and no work-buffer sample outside the two filtered planes' w x h windows changes |
| Ansnr.AnsnrContext.constructor | libavfilter/vf_ansnr.c:314-325 | the context holds the link's dimensions and format, a work buffer of 3 * buf_sz_one bytes, no frames and a zero sum |
| Ansnr.AnsnrContext.DoAnsnr | libavfilter/vf_ansnr.c:215-258 | the frame's scores are the model's, with the peak and cap of the format; the frame count goes up by one and the score is added to the running sum |

## Left out

- Float arithmetic is not modelled. Samples and sums are exact reals. The
  SSE reciprocal in `DIVS` is exact division. Float-versus-double
  accumulation is not distinguished.
- AdmModel.Gain: when `o + eps` is exactly zero, the model gives the gain 0.
  IEEE arithmetic would give an infinity or a NaN there.
- `dwt_quant_step` is not modelled, because it needs `log10` and `pow`.
  `factor1` and `factor2` per scale are positive parameters.
- The tables in `adm.h` are parameters:
  - the wavelet taps;
  - the basis amplitudes;
  - `ADM_BORDER_FACTOR` (taken as >= 0; the range lemmas take it as at
    most 0.5, so that the two margins of an axis do not overlap).
- `powf` cube roots and `log10` are parameters of the model.
- The `offset_fn` pixel extraction and `do_adm` are not part of this model.
  The ADM pictures arrive as real-valued planes.
- ANSNR sample width: `ansnr_filter2d` chooses between 8-bit and 16-bit
  reads by comparing string pointers. The model reads integer samples and
  takes the sample width as a parameter.
- Ansnr.AnsnrFilter2d, and with it Ansnr.FilterPlanes, Ansnr.ComputeAnsnr
  and Ansnr.AnsnrContext.DoAnsnr, read the source frame with the stride in
  samples that the Findings row proposes (`src_stride / sz`). For the 10-bit
  formats they therefore do not reproduce the read the source makes as
  written, `ii * src_stride + jj` with the stride in bytes, which runs past
  the frame. That read is modelled only by
  AnsnrModel.SrcPxStrideAsWritten and AnsnrModel.StrideAsWrittenOverreads.
- Strides in the model count samples. The C byte strides are divided by
  `sizeof(float)` where the source does so.
- Adm.ComputeAdm2, Adm.ScaleLoop, Adm.LevelIteration and Adm.ScaleStep state
  their results but not which work-buffer samples they change. The buffer is
  scratch that the source rewrites on every call.
- Adm.ComputeAdm2 requires both dimensions >= 9. The source does not check
  this, but for smaller pictures the wavelet reflect goes out of bounds
  (`Layout.FourLevelsFitIff`, `Layout.WaveletReflectInBoundsIff`).
- Ansnr.ComputeAnsnr requires both dimensions >= 3. The source does not
  check this, but for smaller pictures the 5x5 kernel's mirrored taps leave
  the frame (`Layout.ReflectOnceInBoundsIff`).
- Ansnr.AnsnrContext.DoAnsnr requires a format that selects a peak and a
  cap. For other names, the source passes an uninitialised peak; the
  negotiated formats never get there.
- Ansnr.AnsnrContext.DoAnsnr assumes the frames' rows are
  `ALIGN_CEIL(w * sz)` bytes apart, as the source does. The frames' own
  line sizes are not consulted.
- Ansnr.AnsnrContext.DoAnsnr returns the two scores. The `printf` of the
  scores is not modelled.
- Ansnr.AnsnrContext.constructor gives the state `config_input_ref`
  leaves. These parts of `config_input_ref` are not modelled:
  - the link dimension and format checks;
  - the `SIZE_MAX` guard;
  - allocation failure.
- Host plumbing is not modelled:
  - `set_meta`, `av_log`, `query_formats` (its format list appears only as
    `AcceptedFormats`);
  - `config_output`, `filter_frame`, `request_frame`;
  - dual-input syncing;
  - `uninit`.
- `libavfilter/vf_vmaf.c` is not part of this model.
- ANSNR filtered planes are read by `ansnr_mse` through float pointers into
  the same work buffer. The model passes the buffer twice with two
  offsets.

## Findings

| source | as written | input that shows it | evidently intended | confidence | as-written member | corrected member |
|---|---|---|---|---|---|---|
| libavfilter/vf_ansnr.c:131 | `src_px_stride = src_stride / sizeof(sz)`. `sz` is a `uint8_t` variable, so this divides by 1 and keeps the byte stride | a 10-bit frame 16 samples wide and 3 rows high: rows are 32 bytes, so 48 samples in all. Sample (2, 15) is read at index 79, past the frame | divide the byte stride by the bytes per sample, `src_stride / sz`, which puts sample (2, 15) at 47 | not executed | AnsnrModel.StrideAsWrittenOverreads | AnsnrModel.SrcPxStrideFits |
