/**
 * The Dense facade of xGETRF, the LU factorisation A = P * L * U: the
 * build-dependent argument checks, the call's arguments, the choice of
 * backend by A's location, and the info check after the call.
 */
module Getrf {
  import opened Exceptions
  import opened Types
  import opened DenseMatrix
  import opened Backend

  /** The checks before the call, in order. A build with CUDA skips every
      check of an empty pivot vector, which asks for an unpivoted
      factorisation, and requires a square A on the GPU. */
  function GetrfChecks(cfg: BuildConfig, ch: Checks, A: Dense, ipiv: Dense): (r: Option<Error>)
    ensures ch.device([A, ipiv]).Some? ==> r == ch.device([A, ipiv])
    ensures ch.device([A, ipiv]).None? && ch.inputTransposed(A).Some? ==> r == ch.inputTransposed(A)
    ensures r.None? ==> ch.device([A, ipiv]).None? && ch.inputTransposed(A).None?
    ensures r.None? && !cfg.cuda ==> Rows(A) == Rows(ipiv) && ch.inputTransposed(ipiv).None?
    ensures r.None? && cfg.cuda ==>
      && (A.location == GPU ==> Rows(A) == Cols(A))
      && (ipiv.storedRows != 0 ==> Rows(A) == Rows(ipiv) && ch.inputTransposed(ipiv).None?)
    ensures !cfg.cuda && ch.device([A, ipiv]).None? && ch.inputTransposed(A).None? && ch.inputTransposed(ipiv).None?
            ==> (r.None? <==> Rows(A) == Rows(ipiv)) && (r.Some? ==> r == Some(BadArgument))
    ensures cfg.cuda && ch.device([A, ipiv]).None? && ch.inputTransposed(A).None? && ipiv.storedRows == 0
            ==> (r.None? <==> A.location != GPU || Rows(A) == Cols(A)) && (r.Some? ==> r == Some(BadArgument))
    ensures ch.device([A, ipiv]).None? && ch.inputTransposed(A).None? && (!cfg.cuda || ipiv.storedRows != 0)
            && ch.inputTransposed(ipiv).Some?
            ==> r == ch.inputTransposed(ipiv)
    ensures cfg.cuda && ch.device([A, ipiv]).None? && ch.inputTransposed(A).None? && ipiv.storedRows != 0
            && ch.inputTransposed(ipiv).None?
            ==> (r.None? <==> (A.location != GPU || Rows(A) == Cols(A)) && Rows(A) == Rows(ipiv))
                && (r.Some? ==> r == Some(BadArgument))
  {
    if ch.device([A, ipiv]).Some? then ch.device([A, ipiv])
    else if ch.inputTransposed(A).Some? then ch.inputTransposed(A)
    else if !cfg.cuda then
      if ch.inputTransposed(ipiv).Some? then ch.inputTransposed(ipiv)
      else if Rows(A) != Rows(ipiv) then Some(BadArgument)
      else None
    else
      var ipivEmpty := ipiv.storedRows == 0;
      if !ipivEmpty && ch.inputTransposed(ipiv).Some? then ch.inputTransposed(ipiv)
      else if Rows(A) != Cols(A) && A.location == GPU then Some(BadArgument)
      else if !ipivEmpty && Rows(A) != Rows(ipiv) then Some(BadArgument)
      else None
  }

  /** The facade, with the number of rows handed to the host routine as a
      parameter: the code as written passes A's columns there. */
  function GetrfHostRows(cfg: BuildConfig, ch: Checks, A: Dense, ipiv: Dense, info: int, hostRows: int): (r: Run)
    ensures |r.calls| <= 1 && (r.calls == [] ==> r.error.Some?)
    ensures GetrfChecks(cfg, ch, A, ipiv).Some? ==> r == Run([], GetrfChecks(cfg, ch, A, ipiv))
    ensures GetrfChecks(cfg, ch, A, ipiv).None? && A.location != Host && !(A.location == GPU && cfg.cuda)
            ==> r == Throw(Unimplemented)
    ensures r.calls != [] <==> GetrfChecks(cfg, ch, A, ipiv).None? && (A.location == Host || (A.location == GPU && cfg.cuda))
    ensures r.calls != [] ==> r == ThenCheckInfo(r.calls[0], info)
    ensures r.calls != [] && A.location == Host ==>
      r.calls[0] == FortranGetrf(hostRows, Cols(A), Begin(A), A.ld, Begin(ipiv))
    ensures r.calls != [] && A.location != Host ==>
      && A.location == GPU && cfg.cuda && Rows(A) == Cols(A)
      && r.calls[0] == CublasGetrf(A.device, Cols(A), Begin(A), A.ld, Begin(ipiv))
  {
    match GetrfChecks(cfg, ch, A, ipiv)
    case Some(e) => Throw(e)
    case None =>
      if A.location == Host then ThenCheckInfo(FortranGetrf(hostRows, Cols(A), Begin(A), A.ld, Begin(ipiv)), info)
      else if A.location == GPU && cfg.cuda then ThenCheckInfo(CublasGetrf(A.device, Cols(A), Begin(A), A.ld, Begin(ipiv)), info)
      else Throw(Unimplemented)
  }

  /** The facade as written: the host routine is told A has as many rows as
      columns. */
  function GetrfAsWritten(cfg: BuildConfig, ch: Checks, A: Dense, ipiv: Dense, info: int): (r: Run)
    ensures r.calls != [] <==> GetrfChecks(cfg, ch, A, ipiv).None? && (A.location == Host || (A.location == GPU && cfg.cuda))
    ensures r.calls != [] && A.location == Host ==> r.calls[0].FortranGetrf? && r.calls[0].m == Cols(A) && r.calls[0].n == Cols(A)
  {
    GetrfHostRows(cfg, ch, A, ipiv, info, Cols(A))
  }

  /** The facade with the host routine told A's rows. */
  function Getrf(cfg: BuildConfig, ch: Checks, A: Dense, ipiv: Dense, info: int): (r: Run)
    ensures r.calls != [] <==> GetrfChecks(cfg, ch, A, ipiv).None? && (A.location == Host || (A.location == GPU && cfg.cuda))
    ensures r.calls != [] && A.location == Host ==> r.calls[0].FortranGetrf? && r.calls[0].m == Rows(A) && r.calls[0].n == Cols(A)
  {
    GetrfHostRows(cfg, ch, A, ipiv, info, Rows(A))
  }

  /** The argument checks of the reference LAPACK xGETRF. */
  predicate ValidGetrfArgs(m: int, n: int, lda: int)
  {
    m >= 0 && n >= 0 && lda >= 1 && lda >= m
  }

  /** On a column-major A that passes the checks, the host call of the
      corrected facade passes the reference argument checks and factors
      the whole of A. */
  lemma GetrfArgsValid(cfg: BuildConfig, ch: Checks, A: Dense, ipiv: Dense, info: int)
    requires Sound(ch) && ColumnMajorShape(A)
    requires Getrf(cfg, ch, A, ipiv, info).calls != [] && A.location == Host
    ensures var call := Getrf(cfg, ch, A, ipiv, info).calls[0];
      ValidGetrfArgs(call.m, call.n, call.lda) && call.m == A.storedRows && call.n == A.storedCols
  {
    assert ch.inputTransposed(A).None?;
  }

  /** On a square A the code as written and the corrected facade agree. */
  lemma GetrfSquareUnaffected(cfg: BuildConfig, ch: Checks, A: Dense, ipiv: Dense, info: int)
    requires Rows(A) == Cols(A)
    ensures GetrfAsWritten(cfg, ch, A, ipiv, info) == Getrf(cfg, ch, A, ipiv, info)
  {
  }

  /** A build without GPU support. */
  function HostBuild(): BuildConfig
  {
    BuildConfig(false, false, false, false, false)
  }

  /** A contiguous 2 x 3 column-major matrix and a 2 x 1 pivot vector on the host. */
  function WideMatrix(): Dense
  {
    FromArray(At(0, 0), 2, 2, 3, Host, 0)
  }

  function TwoPivots(): Dense
  {
    FromArray(At(1, 0), 2, 2, 1, Host, 0)
  }

  /** Concrete input on which the code as written breaks the reference
      contract: for the 2 x 3 matrix it passes the checks and calls the host
      routine with m = 3 over an array whose leading dimension is 2, where
      the corrected facade passes m = 2. */
  lemma GetrfAsWrittenBreaksLda()
    ensures GetrfAsWritten(HostBuild(), StrictChecks(), WideMatrix(), TwoPivots(), 0).calls
            == [FortranGetrf(3, 3, At(0, 0), 2, At(1, 0))]
    ensures !ValidGetrfArgs(3, 3, 2)
    ensures Getrf(HostBuild(), StrictChecks(), WideMatrix(), TwoPivots(), 0).calls
            == [FortranGetrf(2, 3, At(0, 0), 2, At(1, 0))]
    ensures ValidGetrfArgs(2, 3, 2)
  {
    var ch := StrictChecks();
    assert SameDevice([WideMatrix(), TwoPivots()]);
    assert GetrfChecks(HostBuild(), ch, WideMatrix(), TwoPivots()).None?;
  }

  /** In a build with CUDA an empty pivot vector is not checked: any two
      empty pivot vectors at the same address that the device check treats
      alike give the same outcome. */
  lemma GetrfEmptyPivotUnchecked(cfg: BuildConfig, ch: Checks, A: Dense, ipiv: Dense, ipiv': Dense, info: int)
    requires cfg.cuda && ipiv.storedRows == 0 && ipiv'.storedRows == 0
    requires Begin(ipiv) == Begin(ipiv') && ch.device([A, ipiv]) == ch.device([A, ipiv'])
    ensures Getrf(cfg, ch, A, ipiv, info) == Getrf(cfg, ch, A, ipiv', info)
  {
  }
}
