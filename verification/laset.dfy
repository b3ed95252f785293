/**
 * The Dense facade of xLASET, which sets the off-diagonal elements of A to
 * alpha and the diagonal ones to beta: the derivation of the array's
 * extents from the storage format and the choice of backend.
 */
module Laset {
  import opened Exceptions
  import opened Types
  import opened DenseMatrix
  import opened Backend

  /** The extents of the array as a column-major routine sees it: a
      row-major matrix is its transpose laid out column by column. */
  function ArrayRows(A: Dense): int
  {
    if A.format == ColMajor then A.storedRows else A.storedCols
  }

  function ArrayCols(A: Dense): int
  {
    if A.format == ColMajor then A.storedCols else A.storedRows
  }

  /** The facade. Both paths cover the whole array. */
  function Laset(cfg: BuildConfig, ch: Checks, alpha: int, beta: int, A: Dense): (r: Run)
    ensures |r.calls| <= 1 && (r.calls == [] <==> r.error.Some?)
    ensures ch.inputTransposed(A).Some? ==> r == Run([], ch.inputTransposed(A))
    ensures ch.inputTransposed(A).None? && A.location != Host && !(A.location == GPU && cfg.cuda && cfg.magma)
            ==> r == Throw(Unimplemented)
    ensures r.calls != [] <==> ch.inputTransposed(A).None? && (A.location == Host || (A.location == GPU && cfg.cuda && cfg.magma))
    ensures r.calls != [] && A.location == Host ==>
      r.calls[0].FortranLaset? && r.calls[0].uplo == "A"
    ensures r.calls != [] && A.location != Host ==>
      A.location == GPU && cfg.cuda && cfg.magma && r.calls[0].MagmaLaset? && r.calls[0].magmaUplo == MagmaUpperLower
    ensures r.calls != [] ==>
      && (r.calls[0].FortranLaset? || r.calls[0].MagmaLaset?)
      && r.calls[0].alpha == alpha && r.calls[0].beta == beta && r.calls[0].a == Begin(A) && r.calls[0].lda == A.ld
      && (A.format == ColMajor ==> r.calls[0].m == A.storedRows && r.calls[0].n == A.storedCols)
      && (A.format != ColMajor ==> r.calls[0].m == A.storedCols && r.calls[0].n == A.storedRows)
  {
    match ch.inputTransposed(A)
    case Some(e) => Throw(e)
    case None =>
      if A.location == Host then
        Run([FortranLaset("A", ArrayRows(A), ArrayCols(A), alpha, beta, Begin(A), A.ld)], None)
      else if A.location == GPU && cfg.cuda && cfg.magma then
        Run([MagmaLaset(MagmaUpperLower, ArrayRows(A), ArrayCols(A), alpha, beta, Begin(A), A.ld)], None)
      else Throw(Unimplemented)
  }

  /** The stored element that element (i, j) of the routine's column-major
      array is. */
  function StoredElement(A: Dense, i: int, j: int): IJ
  {
    if A.format == ColMajor then IJ(i, j) else IJ(j, i)
  }

  /** For a dense layout the routine's m x n array is exactly the stored
      matrix: every array element (i, j), at j*lda + i, is a stored element
      at the same place, and every stored element is reached that way. */
  lemma LasetCoversMatrix(cfg: BuildConfig, ch: Checks, alpha: int, beta: int, A: Dense)
    requires IsDenseFormat(A.format) && Laset(cfg, ch, alpha, beta, A).calls != []
    ensures var call := Laset(cfg, ch, alpha, beta, A).calls[0];
      && (forall i, j :: 0 <= i < call.m && 0 <= j < call.n ==>
            && InStored(A, StoredElement(A, i, j).row, StoredElement(A, i, j).col)
            && j * call.lda + i == StoredIndex(A, StoredElement(A, i, j).row, StoredElement(A, i, j).col))
      && (forall r, c :: InStored(A, r, c) ==>
            && 0 <= StoredElement(A, r, c).row < call.m && 0 <= StoredElement(A, r, c).col < call.n
            && StoredElement(A, StoredElement(A, r, c).row, StoredElement(A, r, c).col) == IJ(r, c))
  {
  }
}
