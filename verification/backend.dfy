/**
 * What the backend-dispatch facades hand to the vendor libraries. The
 * kernels themselves are not modelled: a facade's outcome is the sequence
 * of vendor calls it makes, with their arguments, and the exception it
 * throws, if any. The argument checks of the library's check helpers are a
 * parameter (`Checks`), and so is the info value a kernel reports.
 */
module Backend {
  import opened Exceptions
  import opened Types
  import opened DenseMatrix

  /** Transposition argument of a CUBLAS call. */
  datatype Op = OpN | OpT

  /** Triangle argument of a CUBLAS triangular solve. */
  datatype Fill = Lower | Upper

  /** Diagonal argument of a CUBLAS triangular solve. */
  datatype Diag = UnitDiagonal | NonUnitDiagonal

  /** Side argument of a CUBLAS triangular solve; only the left side occurs. */
  datatype Side = LeftSide

  /** The triangle argument of MAGMA's LASET; only the whole matrix occurs. */
  datatype MagmaUplo = MagmaUpperLower

  /** One vendor call with its arguments. Pointers are element pointers; a
      CUBLAS or MAGMA call names the device whose library handle it uses.
      Scalars are modelled as integers. */
  datatype Call =
    | FortranGemm(transa: char, transb: char, m: int, n: int, k: int, alpha: int,
                  a: Ptr, lda: int, b: Ptr, ldb: int, beta: int, c: Ptr, ldc: int)
    | CublasGemm(device: int, opa: Op, opb: Op, m: int, n: int, k: int, alpha: int,
                 a: Ptr, lda: int, b: Ptr, ldb: int, beta: int, c: Ptr, ldc: int)
    | MklGemm(transa: char, transb: char, m: int, n: int, k: int, alpha: int,
              a: Ptr, lda: int, b: Ptr, ldb: int, beta: int, c: Ptr, ldc: int)
    | FortranGetrf(m: int, n: int, a: Ptr, lda: int, ipiv: Ptr)
    | CublasGetrf(device: int, n: int, a: Ptr, lda: int, ipiv: Ptr)
    | FortranGesv(n: int, nrhs: int, a: Ptr, lda: int, ipiv: Ptr, b: Ptr, ldb: int)
    | CublasTrsm(device: int, side: Side, fill: Fill, op: Op, diag: Diag, m: int, n: int, alpha: int,
                 a: Ptr, lda: int, b: Ptr, ldb: int)
    | FortranLaset(uplo: string, m: int, n: int, alpha: int, beta: int, a: Ptr, lda: int)
    | MagmaLaset(magmaUplo: MagmaUplo, m: int, n: int, alpha: int, beta: int, a: Ptr, lda: int)

  /** The outcome of a facade: the calls made, in order, then the exception
      thrown, if any. */
  datatype Run = Run(calls: seq<Call>, error: Option<Error>)

  /** A facade that throws before calling anything. */
  function Throw(e: Error): (r: Run)
    ensures r.calls == [] && r.error == Some(e)
  {
    Run([], Some(e))
  }

  /** A call followed by the check of the info it reports. */
  function ThenCheckInfo(call: Call, info: int): (r: Run)
    ensures r.calls == [call]
    ensures r.error.None? <==> info == 0
    ensures r.error.Some? ==> r.error.value == MathError(info)
  {
    Run([call], if info != 0 then Some(MathError(info)) else None)
  }

  /** The check helpers: each returns the exception it throws, or None. */
  datatype Checks = Checks(
    device: seq<Dense> -> Option<Error>,
    inputTransposed: Dense -> Option<Error>,
    outputTransposed: Dense -> Option<Error>,
    format: (Format, Dense) -> Option<Error>,
    dimensions: (int, int, Dense) -> Option<Error>
  )

  /** Check helpers that let through only what their names promise. */
  ghost predicate Sound(ch: Checks)
  {
    && (forall h :: ch.inputTransposed(h).None? ==> !h.transposed)
    && (forall h :: ch.outputTransposed(h).None? ==> !h.transposed)
    && (forall f, h :: ch.format(f, h).None? ==> h.format == f)
    && (forall r, c, h :: ch.dimensions(r, c, h).None? ==> Rows(h) == r && Cols(h) == c)
  }

  /** Operands on one location and device. */
  predicate SameDevice(hs: seq<Dense>)
  {
    forall i :: 0 <= i < |hs| ==> hs[i].location == hs[0].location && hs[i].device == hs[0].device
  }

  /** One reading of the check helpers: each throws BadArgument exactly when
      its condition fails. */
  function StrictChecks(): (ch: Checks)
    ensures Sound(ch)
    ensures forall hs :: ch.device(hs).None? <==> SameDevice(hs)
  {
    Checks(
      (hs: seq<Dense>) => if SameDevice(hs) then None else Some(BadArgument),
      (h: Dense) => if h.transposed then Some(BadArgument) else None,
      (h: Dense) => if h.transposed then Some(BadArgument) else None,
      (f: Format, h: Dense) => if h.format == f then None else Some(BadArgument),
      (r: int, c: int, h: Dense) => if Rows(h) == r && Cols(h) == c then None else Some(BadArgument))
  }

  /** A column-major handle whose leading dimension covers its rows, as the
      reference BLAS and LAPACK require of a matrix argument. */
  predicate ColumnMajorShape(h: Dense)
  {
    h.format == ColMajor && h.storedRows >= 0 && h.storedCols >= 0 && h.ld >= 1 && h.ld >= h.storedRows
  }

  /** The element a reference BLAS routine reads at (r, c) of op(A), for a
      column-major array with leading dimension ld. */
  function FortranIndex(trans: char, ld: int, r: int, c: int): int
  {
    if trans == 'N' then c * ld + r else r * ld + c
  }
}
