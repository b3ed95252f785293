/**
 * The Dense facade of xGESV, B <- A^-1 * B: the argument checks, the host
 * solver call, and on the GPU an unpivoted LU factorisation followed by two
 * triangular solves.
 */
module Gesv {
  import opened Exceptions
  import opened Types
  import opened DenseMatrix
  import opened Backend
  import Getrf

  /** The checks before any call, in order. */
  function GesvChecks(ch: Checks, A: Dense, ipiv: Dense, B: Dense): (r: Option<Error>)
    ensures r.None? <==>
      && ch.device([A, B, ipiv]).None?
      && ch.format(ColMajor, A).None? && ch.format(ColMajor, B).None?
      && ch.dimensions(Rows(A), Cols(B), B).None? && ch.dimensions(Rows(A), 1, ipiv).None?
      && ch.inputTransposed(A).None? && ch.inputTransposed(B).None?
    ensures ch.device([A, B, ipiv]).Some? ==> r == ch.device([A, B, ipiv])
    ensures ch.device([A, B, ipiv]).None? && ch.format(ColMajor, A).Some? ==> r == ch.format(ColMajor, A)
    ensures ch.device([A, B, ipiv]).None? && ch.format(ColMajor, A).None? && ch.format(ColMajor, B).Some?
            ==> r == ch.format(ColMajor, B)
    ensures ch.device([A, B, ipiv]).None? && ch.format(ColMajor, A).None? && ch.format(ColMajor, B).None?
            && ch.dimensions(Rows(A), Cols(B), B).Some?
            ==> r == ch.dimensions(Rows(A), Cols(B), B)
    ensures ch.device([A, B, ipiv]).None? && ch.format(ColMajor, A).None? && ch.format(ColMajor, B).None?
            && ch.dimensions(Rows(A), Cols(B), B).None? && ch.dimensions(Rows(A), 1, ipiv).Some?
            ==> r == ch.dimensions(Rows(A), 1, ipiv)
    ensures ch.device([A, B, ipiv]).None? && ch.format(ColMajor, A).None? && ch.format(ColMajor, B).None?
            && ch.dimensions(Rows(A), Cols(B), B).None? && ch.dimensions(Rows(A), 1, ipiv).None?
            && ch.inputTransposed(A).Some?
            ==> r == ch.inputTransposed(A)
    ensures ch.device([A, B, ipiv]).None? && ch.format(ColMajor, A).None? && ch.format(ColMajor, B).None?
            && ch.dimensions(Rows(A), Cols(B), B).None? && ch.dimensions(Rows(A), 1, ipiv).None?
            && ch.inputTransposed(A).None? && ch.inputTransposed(B).Some?
            ==> r == ch.inputTransposed(B)
  {
    if ch.device([A, B, ipiv]).Some? then ch.device([A, B, ipiv])
    else if ch.format(ColMajor, A).Some? then ch.format(ColMajor, A)
    else if ch.format(ColMajor, B).Some? then ch.format(ColMajor, B)
    else if ch.dimensions(Rows(A), Cols(B), B).Some? then ch.dimensions(Rows(A), Cols(B), B)
    else if ch.dimensions(Rows(A), 1, ipiv).Some? then ch.dimensions(Rows(A), 1, ipiv)
    else if ch.inputTransposed(A).Some? then ch.inputTransposed(A)
    else if ch.inputTransposed(B).Some? then ch.inputTransposed(B)
    else None
  }

  /** The triangular solve of the GPU path with the given triangle. */
  function Trsm(A: Dense, B: Dense, fill: Fill, diag: Diag): Call
  {
    CublasTrsm(A.device, LeftSide, fill, OpN, diag, Rows(A), Cols(B), 1, Begin(A), A.ld, Begin(B), B.ld)
  }

  /** The GPU path, built without MAGMA's solver: factor A without pivoting,
      stop on a non-zero info, then solve L y = B and U x = y in place. */
  function GpuSolve(A: Dense, B: Dense, info: int): (r: Run)
    ensures A.storedRows != A.storedCols ==> r == Throw(BadArgument)
    ensures A.storedRows == A.storedCols ==> 1 <= |r.calls| <= 3 && r.calls[0] == CublasGetrf(A.device, Rows(A), Begin(A), A.ld, Null)
    ensures A.storedRows == A.storedCols && info != 0 ==> r == ThenCheckInfo(r.calls[0], info)
    ensures A.storedRows == A.storedCols && info == 0 ==>
      && r.error.None? && |r.calls| == 3
      && r.calls[1].CublasTrsm? && r.calls[2].CublasTrsm?
      && r.calls[1].fill == Lower && r.calls[1].diag == UnitDiagonal
      && r.calls[2].fill == Upper && r.calls[2].diag == NonUnitDiagonal
      && forall i :: 1 <= i < 3 ==>
           && r.calls[i].device == A.device && r.calls[i].side == LeftSide && r.calls[i].op == OpN
           && r.calls[i].m == Rows(A) && r.calls[i].n == Cols(B) && r.calls[i].alpha == 1
           && r.calls[i].a == Begin(A) && r.calls[i].lda == A.ld && r.calls[i].b == Begin(B) && r.calls[i].ldb == B.ld
  {
    if A.storedRows != A.storedCols then Throw(BadArgument)
    else
      var getrf := CublasGetrf(A.device, Rows(A), Begin(A), A.ld, Null);
      if info != 0 then ThenCheckInfo(getrf, info)
      else Run([getrf, Trsm(A, B, Lower, UnitDiagonal), Trsm(A, B, Upper, NonUnitDiagonal)], None)
  }

  /** The facade. `info` is what the one call that reports it returns: the
      host solver, or the GPU factorisation. */
  function Gesv(cfg: BuildConfig, ch: Checks, A: Dense, ipiv: Dense, B: Dense, info: int): (r: Run)
    ensures |r.calls| <= 3
    ensures GesvChecks(ch, A, ipiv, B).Some? ==> r == Run([], GesvChecks(ch, A, ipiv, B))
    ensures GesvChecks(ch, A, ipiv, B).None? && A.location == Host ==>
      r == ThenCheckInfo(FortranGesv(Rows(A), Cols(B), Begin(A), A.ld, Begin(ipiv), Begin(B), B.ld), info)
    ensures GesvChecks(ch, A, ipiv, B).None? && A.location == GPU && cfg.cuda ==>
      r == if cfg.magmaGesv then Run([], None) else GpuSolve(A, B, info)
    ensures GesvChecks(ch, A, ipiv, B).None? && A.location != Host && !(A.location == GPU && cfg.cuda) ==>
      r == Throw(Unimplemented)
  {
    match GesvChecks(ch, A, ipiv, B)
    case Some(e) => Throw(e)
    case None =>
      if A.location == Host then
        ThenCheckInfo(FortranGesv(Rows(A), Cols(B), Begin(A), A.ld, Begin(ipiv), Begin(B), B.ld), info)
      else if A.location == GPU && cfg.cuda then
        if cfg.magmaGesv then Run([], None) else GpuSolve(A, B, info)
      else Throw(Unimplemented)
  }

  /** The argument checks of the reference LAPACK xGESV. */
  predicate ValidGesvArgs(n: int, nrhs: int, lda: int, ldb: int)
  {
    n >= 0 && nrhs >= 0 && lda >= 1 && lda >= n && ldb >= 1 && ldb >= n
  }

  /** The argument checks of a left-side triangular solve: A is m x m and
      B is m x n. */
  predicate ValidTrsmArgs(m: int, n: int, lda: int, ldb: int)
  {
    m >= 0 && n >= 0 && lda >= 1 && lda >= m && ldb >= 1 && ldb >= m
  }

  /** On column-major operands that pass the checks, every call either path
      makes passes its reference argument checks. */
  lemma GesvArgsValid(cfg: BuildConfig, ch: Checks, A: Dense, ipiv: Dense, B: Dense, info: int)
    requires Sound(ch) && ColumnMajorShape(A) && ColumnMajorShape(B)
    requires GesvChecks(ch, A, ipiv, B).None?
    ensures var r := Gesv(cfg, ch, A, ipiv, B, info);
      && (A.location == Host ==> ValidGesvArgs(r.calls[0].n, r.calls[0].nrhs, r.calls[0].lda, r.calls[0].ldb))
      && (A.location == GPU && r.calls != [] ==>
            r.calls[0].CublasGetrf? && Getrf.ValidGetrfArgs(r.calls[0].n, r.calls[0].n, r.calls[0].lda))
      && (A.location == GPU ==> forall i :: 1 <= i < |r.calls| ==>
            r.calls[i].CublasTrsm? && ValidTrsmArgs(r.calls[i].m, r.calls[i].n, r.calls[i].lda, r.calls[i].ldb))
  {
    assert ch.inputTransposed(A).None? && ch.inputTransposed(B).None?;
    assert ch.dimensions(Rows(A), Cols(B), B).None?;
  }

  /** The GPU path starts with exactly the call, and the info check, of the
      GETRF facade asked for an unpivoted factorisation (an empty pivot
      vector). */
  lemma GesvGpuFactorsLikeGetrf(cfg: BuildConfig, ch: Checks, A: Dense, ipiv: Dense, B: Dense, info: int)
    requires cfg.cuda && !cfg.magmaGesv && A.location == GPU && A.storedRows == A.storedCols
    requires GesvChecks(ch, A, ipiv, B).None? && ch.device([A, Empty()]).None?
    ensures var r := Gesv(cfg, ch, A, ipiv, B, info);
      r.calls != [] && Getrf.Getrf(cfg, ch, A, Empty(), info) == ThenCheckInfo(r.calls[0], info)
  {
    assert ch.inputTransposed(A).None?;
    assert Getrf.GetrfChecks(cfg, ch, A, Empty()).None?;
  }
}
