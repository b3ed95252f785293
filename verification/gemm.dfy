/**
 * The Dense facades of xGEMM, C = alpha * op(A) * op(B) + beta * C: shape
 * check, derivation of the call's arguments from the handles, and the
 * choice of backend by A's location.
 */
module Gemm {
  import opened Exceptions
  import opened Types
  import opened DenseMatrix
  import opened Backend

  /** The BLAS transposition character of a handle. */
  function TransChar(h: Dense): (c: char)
    ensures c == 'T' <==> h.transposed
    ensures c == 'N' <==> !h.transposed
  {
    if h.transposed then 'T' else 'N'
  }

  /** The CUBLAS transposition argument of a handle. */
  function TransOp(h: Dense): (op: Op)
    ensures op == OpT <==> h.transposed
  {
    if h.transposed then OpT else OpN
  }

  /** op(A) is Rows(C) x k, op(B) is k x Cols(C). */
  predicate ShapesAgree(A: Dense, B: Dense, C: Dense)
  {
    Rows(A) == Rows(C) && Cols(A) == Rows(B) && Cols(B) == Cols(C)
  }

  /** The checks every overload makes first, in order. */
  function GemmChecks(ch: Checks, A: Dense, B: Dense, C: Dense): (r: Option<Error>)
    ensures r.None? <==> ch.device([A, B, C]).None? && ch.outputTransposed(C).None? && ShapesAgree(A, B, C)
    ensures ch.device([A, B, C]).Some? ==> r == ch.device([A, B, C])
    ensures ch.device([A, B, C]).None? && ch.outputTransposed(C).Some? ==> r == ch.outputTransposed(C)
    ensures ch.device([A, B, C]).None? && ch.outputTransposed(C).None? && !ShapesAgree(A, B, C) ==> r == Some(BadArgument)
  {
    if ch.device([A, B, C]).Some? then ch.device([A, B, C])
    else if ch.outputTransposed(C).Some? then ch.outputTransposed(C)
    else if !ShapesAgree(A, B, C) then Some(BadArgument)
    else None
  }

  /** The arguments of a GEMM call, as all three backends receive them. */
  predicate CarriesOperands(call: Call, alpha: int, A: Dense, B: Dense, beta: int, C: Dense)
    requires call.FortranGemm? || call.CublasGemm? || call.MklGemm?
  {
    && call.m == Rows(A) && call.n == Cols(B) && call.k == Rows(B)
    && call.alpha == alpha && call.beta == beta
    && call.a == Begin(A) && call.lda == A.ld
    && call.b == Begin(B) && call.ldb == B.ld
    && call.c == Begin(C) && call.ldc == C.ld
  }

  /** The main overload (and the one with a differently typed B, whose body
      is the same). */
  function Gemm(cfg: BuildConfig, ch: Checks, alpha: int, A: Dense, B: Dense, beta: int, C: Dense): (r: Run)
    ensures |r.calls| <= 1 && (r.calls == [] <==> r.error.Some?)
    ensures GemmChecks(ch, A, B, C).Some? ==> r == Run([], GemmChecks(ch, A, B, C))
    ensures GemmChecks(ch, A, B, C).None? && A.location != Host && !(A.location == GPU && cfg.cuda) ==> r == Throw(Unimplemented)
    ensures r.calls != [] <==> GemmChecks(ch, A, B, C).None? && (A.location == Host || (A.location == GPU && cfg.cuda))
    ensures r.calls != [] ==> (r.calls[0].FortranGemm? || r.calls[0].CublasGemm?) && ShapesAgree(A, B, C)
                              && CarriesOperands(r.calls[0], alpha, A, B, beta, C)
    ensures r.calls != [] && A.location == Host ==>
      r.calls[0].FortranGemm? && r.calls[0].transa == TransChar(A) && r.calls[0].transb == TransChar(B)
    ensures r.calls != [] && A.location != Host ==>
      && A.location == GPU && cfg.cuda && r.calls[0].CublasGemm? && r.calls[0].device == A.device
      && r.calls[0].opa == TransOp(A) && r.calls[0].opb == TransOp(B)
  {
    match GemmChecks(ch, A, B, C)
    case Some(e) => Throw(e)
    case None =>
      if A.location == Host then
        Run([FortranGemm(TransChar(A), TransChar(B), Rows(A), Cols(B), Rows(B), alpha,
                         Begin(A), A.ld, Begin(B), B.ld, beta, Begin(C), C.ld)], None)
      else if A.location == GPU && cfg.cuda then
        Run([CublasGemm(A.device, TransOp(A), TransOp(B), Rows(A), Cols(B), Rows(B), alpha,
                        Begin(A), A.ld, Begin(B), B.ld, beta, Begin(C), C.ld)], None)
      else Throw(Unimplemented)
  }

  /** The argument checks of the reference BLAS xGEMM: dimensions are not
      negative and each leading dimension covers the rows of the array as
      stored (op(A) is m x k, op(B) is k x n, C is m x n). */
  predicate ValidGemmArgs(transa: char, transb: char, m: int, n: int, k: int, lda: int, ldb: int, ldc: int)
  {
    var rowsA := if transa == 'N' then m else k;
    var rowsB := if transb == 'N' then k else n;
    && transa in "NT" && transb in "NT"
    && m >= 0 && n >= 0 && k >= 0
    && lda >= 1 && lda >= rowsA
    && ldb >= 1 && ldb >= rowsB
    && ldc >= 1 && ldc >= m
  }

  /** On column-major operands that pass the checks, the host call always
      passes the reference BLAS argument checks. */
  lemma GemmArgsValid(cfg: BuildConfig, ch: Checks, alpha: int, A: Dense, B: Dense, beta: int, C: Dense)
    requires Sound(ch) && ColumnMajorShape(A) && ColumnMajorShape(B) && ColumnMajorShape(C)
    requires Gemm(cfg, ch, alpha, A, B, beta, C).calls != [] && A.location == Host
    ensures var call := Gemm(cfg, ch, alpha, A, B, beta, C).calls[0];
      ValidGemmArgs(call.transa, call.transb, call.m, call.n, call.k, call.lda, call.ldb, call.ldc)
  {
    assert ch.outputTransposed(C).None?;
  }

  /** With a column-major operand, the element BLAS reads at (r, c) of op(A)
      is the element the handle calls (r, c). */
  lemma TransCharReadsLogicalElement(h: Dense, r: int, c: int)
    requires h.format == ColMajor
    ensures FortranIndex(TransChar(h), h.ld, r, c) == PrintIndex(h, r, c)
  {
  }

  /** The host call reads op(A), op(B) and writes C at exactly the elements
      the handles' own index formula names, when all three are column-major. */
  lemma GemmOperandsAgree(cfg: BuildConfig, ch: Checks, alpha: int, A: Dense, B: Dense, beta: int, C: Dense, r: int, c: int)
    requires Sound(ch) && A.format == ColMajor && B.format == ColMajor && C.format == ColMajor
    requires Gemm(cfg, ch, alpha, A, B, beta, C).calls != [] && A.location == Host
    ensures var call := Gemm(cfg, ch, alpha, A, B, beta, C).calls[0];
      && call.a == Begin(A) && FortranIndex(call.transa, call.lda, r, c) == PrintIndex(A, r, c)
      && call.b == Begin(B) && FortranIndex(call.transb, call.ldb, r, c) == PrintIndex(B, r, c)
      && call.c == Begin(C) && FortranIndex('N', call.ldc, r, c) == PrintIndex(C, r, c)
  {
    assert ch.outputTransposed(C).None?;
    TransCharReadsLogicalElement(A, r, c);
    TransCharReadsLogicalElement(B, r, c);
  }

  /** The overload with differently typed operands, which only MKL serves. */
  function GemmMixed(cfg: BuildConfig, ch: Checks, alpha: int, A: Dense, B: Dense, beta: int, C: Dense): (r: Run)
    ensures |r.calls| <= 1 && (r.calls == [] <==> r.error.Some?)
    ensures GemmChecks(ch, A, B, C).Some? ==> r == Run([], GemmChecks(ch, A, B, C))
    ensures GemmChecks(ch, A, B, C).None? && (A.location != Host || !cfg.mkl) ==> r == Throw(Unimplemented)
    ensures r.calls != [] <==> GemmChecks(ch, A, B, C).None? && A.location == Host && cfg.mkl
    ensures r.calls != [] ==>
      && cfg.mkl && A.location == Host && r.calls[0].MklGemm?
      && CarriesOperands(r.calls[0], alpha, A, B, beta, C)
      && r.calls[0].transa == TransChar(A) && r.calls[0].transb == TransChar(B)
  {
    match GemmChecks(ch, A, B, C)
    case Some(e) => Throw(e)
    case None =>
      if A.location != Host then Throw(Unimplemented)
      else if !cfg.mkl then Throw(Unimplemented)
      else
        Run([MklGemm(TransChar(A), TransChar(B), Rows(A), Cols(B), Rows(B), alpha,
                     Begin(A), A.ld, Begin(B), B.ld, beta, Begin(C), C.ld)], None)
  }

  /** Where the mixed overload calls MKL, it passes the very arguments the
      main overload passes to the reference BLAS. */
  lemma GemmMixedAgreesWithHost(cfg: BuildConfig, ch: Checks, alpha: int, A: Dense, B: Dense, beta: int, C: Dense)
    requires GemmMixed(cfg, ch, alpha, A, B, beta, C).calls != []
    ensures Gemm(cfg, ch, alpha, A, B, beta, C).calls != []
    ensures var mkl := GemmMixed(cfg, ch, alpha, A, B, beta, C).calls[0];
      Gemm(cfg, ch, alpha, A, B, beta, C).calls[0]
        == FortranGemm(mkl.transa, mkl.transb, mkl.m, mkl.n, mkl.k, mkl.alpha, mkl.a, mkl.lda, mkl.b, mkl.ldb, mkl.beta, mkl.c, mkl.ldc)
  {
  }
}
