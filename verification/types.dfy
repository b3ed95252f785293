/**
 * Descriptors shared by every part of the library: element type tags,
 * matrix property bits, storage locations, storage formats, sub-block
 * specifications and matrix points.
 */
module Types {

  /** The library's element type tags. */
  datatype Type = O | S | D | C | Z | I

  /** The C++ element types a template can be instantiated with: the five
      named scalar types and any other type, told apart by its name. */
  datatype Scalar =
    | SingleReal       // S_t
    | DoubleReal       // D_t
    | SingleComplex    // C_t
    | DoubleComplex    // Z_t
    | Index            // I_t
    | OtherScalar(name: string)

  /** The tag `type<T>()` returns for an instantiation. */
  function TypeOf(t: Scalar): Type
  {
    match t
    case SingleReal => S
    case DoubleReal => D
    case SingleComplex => C
    case DoubleComplex => Z
    case Index => I
    case OtherScalar(_) => O
  }

  /** Only the complex specialisations report `_is_complex()`. */
  predicate IsComplex(t: Scalar)
  {
    t.SingleComplex? || t.DoubleComplex?
  }

  /** Each named scalar has its own tag and every other type maps to O. */
  lemma TypeOfTags(t: Scalar)
    ensures TypeOf(t) == O <==> t.OtherScalar?
    ensures TypeOf(t) == S <==> t == SingleReal
    ensures TypeOf(t) == D <==> t == DoubleReal
    ensures TypeOf(t) == C <==> t == SingleComplex
    ensures TypeOf(t) == Z <==> t == DoubleComplex
    ensures TypeOf(t) == I <==> t == Index
    ensures IsComplex(t) <==> TypeOf(t) == C || TypeOf(t) == Z
  {
  }

  /** Matrix properties, stored together as a bit field. */
  datatype Property = General | Symmetric | Hermitian | Packed

  /** The bit each property occupies in the bit field. */
  function Bit(p: Property): bv8
  {
    match p
    case General => 0x01
    case Symmetric => 0x02
    case Hermitian => 0x04
    case Packed => 0x08
  }

  /** Every property is one single bit, and no two properties share it. */
  lemma BitsAreDistinctSingletons(p: Property, q: Property)
    ensures Bit(p) != 0 && Bit(p) & (Bit(p) - 1) == 0
    ensures p != q ==> Bit(p) & Bit(q) == 0
    ensures p == q <==> Bit(p) == Bit(q)
  {
  }

  /** Where data lives. GPU and MIC exist only in builds with their support. */
  datatype Location = Host | GPU | MIC

  /** The build flags that decide which backends are compiled in. */
  datatype BuildConfig = BuildConfig(
    cuda: bool,          // HAVE_CUDA
    mic: bool,           // HAVE_MIC
    mkl: bool,           // HAVE_MKL
    magma: bool,         // HAVE_MAGMA
    magmaGesv: bool      // USE_MAGMA_GESV
  )

  /** Storage formats: two dense layouts and two sparse ones. */
  datatype Format = ColMajor | RowMajor | CSR | CSC

  predicate IsDenseFormat(f: Format)
  {
    f == ColMajor || f == RowMajor
  }

  /** A half-open rectangle of rows and columns. It is declared outside the
      files of this model; only its four bounds are used. */
  datatype SubBlock = SubBlock(firstRow: int, lastRow: int, firstCol: int, lastCol: int)

  /** A point in a matrix; the empty constructor makes IJ(0, 0). */
  datatype IJ = IJ(row: int, col: int)
}
