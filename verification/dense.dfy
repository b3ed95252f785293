/**
 * The dense matrix handle: a record of metadata over a shared arena. Every
 * operation here is arithmetic over that record; element values live in a
 * separate store that maps arena ids to their contents.
 */
module DenseMatrix {
  import opened Exceptions
  import opened Types

  type ArenaId = nat

  /** A shared pointer: the arena it points into, the element of that arena
      it points at, and whether its deleter frees the arena (false for
      caller-supplied memory and for aliases built over another handle). */
  datatype Ref = Ref(arena: ArenaId, base: int, owning: bool)

  /** A raw element pointer: null, or an element of an arena. */
  datatype Ptr = Null | At(arena: ArenaId, index: int)

  /** Element contents of every arena. */
  type Store<T> = map<ArenaId, seq<T>>

  /** The handle. Rows and columns are as stored, before transposition. */
  datatype Dense = Dense(
    memory: Option<Ref>,
    offset: int,
    ld: int,
    format: Format,
    storedRows: int,
    storedCols: int,
    location: Location,
    device: int,
    transposed: bool,
    properties: bv8
  )

  // ---------------------------------------------------------------------
  // Extents, transposition and properties
  // ---------------------------------------------------------------------

  /** The empty handle every constructor starts from: no memory, nothing
      stored, on the host, column-major, not transposed, no property. */
  function Empty(): (r: Dense)
    ensures IsEmpty(r) && Begin(r) == Null && forall p :: !Is(r, p)
    ensures r.memory.None? && r.offset == 0 && r.ld == 0 && r.storedRows == 0 && r.storedCols == 0
    ensures r.format == ColMajor && r.location == Host && r.device == 0 && !r.transposed && r.properties == 0
  {
    Dense(None, 0, 0, ColMajor, 0, 0, Host, 0, false, 0)
  }

  function Rows(h: Dense): int
  {
    if h.transposed then h.storedCols else h.storedRows
  }

  function Cols(h: Dense): int
  {
    if h.transposed then h.storedRows else h.storedCols
  }

  /** Marking a handle transposed flips one flag and touches no data. */
  function Transpose(h: Dense): Dense
  {
    h.(transposed := !h.transposed)
  }

  predicate IsEmpty(h: Dense)
  {
    h.storedRows == 0 || h.storedCols == 0
  }

  predicate Is(h: Dense, p: Property)
  {
    h.properties & Bit(p) != 0
  }

  /** Sets one property. Hermitian is refused on a real element type. */
  function Set(ty: Scalar, h: Dense, p: Property): (r: Result<Dense>)
    ensures r.Err? <==> p == Hermitian && !IsComplex(ty)
    ensures r.Err? ==> r.error == BadArgument
    ensures r.Ok? ==> Is(r.value, p)
    ensures r.Ok? ==> r.value.properties & !Bit(p) == h.properties & !Bit(p)
    ensures r.Ok? ==> r.value.(properties := h.properties) == h
  {
    if p == Hermitian && !IsComplex(ty) then Err(BadArgument)
    else Ok(h.(properties := h.properties | Bit(p)))
  }

  /** Clears one property. */
  function Unset(h: Dense, p: Property): (r: Dense)
    ensures !Is(r, p)
    ensures r.properties & !Bit(p) == h.properties & !Bit(p)
    ensures r.(properties := h.properties) == h
  {
    h.(properties := h.properties & !Bit(p))
  }

  /** Setting or clearing one property leaves every other property as it was. */
  lemma SetUnsetKeepOthers(ty: Scalar, h: Dense, p: Property, q: Property)
    requires p != q
    ensures Set(ty, h, p).Ok? ==> (Is(Set(ty, h, p).value, q) <==> Is(h, q))
    ensures Is(Unset(h, p), q) <==> Is(h, q)
  {
    BitsAreDistinctSingletons(p, q);
  }

  /** Transposition swaps the logical extents and undoes itself. */
  lemma TransposeInvolution(h: Dense)
    ensures Transpose(Transpose(h)) == h
    ensures Rows(Transpose(h)) == Cols(h) && Cols(Transpose(h)) == Rows(h)
    ensures IsEmpty(Transpose(h)) == IsEmpty(h)
    ensures IsEmpty(h) <==> Rows(h) == 0 || Cols(h) == 0
  {
  }

  // ---------------------------------------------------------------------
  // Element addressing
  // ---------------------------------------------------------------------

  /** Distance from the handle's first element to stored element (i, j). */
  function StoredIndex(h: Dense, i: int, j: int): int
  {
    if h.format == ColMajor then j * h.ld + i else i * h.ld + j
  }

  /** Distance from the first element to logical element (r, c), exactly as
      the printing routine computes it. */
  function PrintIndex(h: Dense, r: int, c: int): int
  {
    if (h.format == ColMajor && h.transposed) || (h.format == RowMajor && !h.transposed)
    then r * h.ld + c
    else c * h.ld + r
  }

  /** Logical element (r, c) is stored element (c, r) of a transposed handle
      and (r, c) otherwise. */
  function LogicalIndex(h: Dense, r: int, c: int): int
  {
    if h.transposed then StoredIndex(h, c, r) else StoredIndex(h, r, c)
  }

  /** The print formula resolves transposition as the stored layout demands,
      and transposing the handle mirrors it. */
  lemma PrintIndexResolvesTransposition(h: Dense, r: int, c: int)
    requires IsDenseFormat(h.format)
    ensures PrintIndex(h, r, c) == LogicalIndex(h, r, c)
    ensures PrintIndex(Transpose(h), r, c) == PrintIndex(h, c, r)
  {
  }

  /** Arena index of stored element (i, j). */
  function Address(h: Dense, i: int, j: int): int
    requires h.memory.Some?
  {
    h.memory.value.base + h.offset + StoredIndex(h, i, j)
  }

  function Begin(h: Dense): Ptr
  {
    match h.memory
    case None => Null
    case Some(ref) => At(ref.arena, ref.base + h.offset)
  }

  predicate InStored(h: Dense, i: int, j: int)
  {
    0 <= i < h.storedRows && 0 <= j < h.storedCols
  }

  /** Every stored element of the handle lies in the first `len` elements
      of its arena. */
  predicate FitsIn(h: Dense, len: int)
  {
    && h.memory.Some?
    && h.memory.value.base >= 0
    && h.offset >= 0
    && h.ld >= 0
    && (h.storedRows <= 0 || h.storedCols <= 0 || Address(h, h.storedRows - 1, h.storedCols - 1) < len)
  }

  /** The handle points at an arena of the store that holds all its elements. */
  predicate Valid<T>(mem: Store<T>, h: Dense)
  {
    h.memory.Some? && h.memory.value.arena in mem && FitsIn(h, |mem[h.memory.value.arena]|)
  }

  lemma MulLeMul(a: int, b: int, n: int)
    requires 0 <= a <= b && n >= 0
    ensures a * n <= b * n
  {
  }

  /** A handle that fits addresses only elements inside the arena. */
  lemma FitsInBounds(h: Dense, len: int, i: int, j: int)
    requires FitsIn(h, len) && InStored(h, i, j)
    ensures 0 <= Address(h, i, j) < len
  {
    if h.format == ColMajor {
      MulLeMul(j, h.storedCols - 1, h.ld);
    } else {
      MulLeMul(i, h.storedRows - 1, h.ld);
    }
  }

  function ReadStored<T>(mem: Store<T>, h: Dense, i: int, j: int): T
    requires Valid(mem, h) && InStored(h, i, j)
  {
    FitsInBounds(h, |mem[h.memory.value.arena]|, i, j);
    mem[h.memory.value.arena][Address(h, i, j)]
  }

  function WriteStored<T>(mem: Store<T>, h: Dense, i: int, j: int, v: T): Store<T>
    requires Valid(mem, h) && InStored(h, i, j)
  {
    FitsInBounds(h, |mem[h.memory.value.arena]|, i, j);
    var a := h.memory.value.arena;
    mem[a := mem[a][Address(h, i, j) := v]]
  }

  /** Logical element (r, c), read through the print formula. */
  function Read<T>(mem: Store<T>, h: Dense, r: int, c: int): T
    requires IsDenseFormat(h.format) && Valid(mem, h)
    requires 0 <= r < Rows(h) && 0 <= c < Cols(h)
  {
    var i := if h.transposed then c else r;
    var j := if h.transposed then r else c;
    FitsInBounds(h, |mem[h.memory.value.arena]|, i, j);
    mem[h.memory.value.arena][h.memory.value.base + h.offset + PrintIndex(h, r, c)]
  }

  /** Reading the transpose at (c, r) reads the element at (r, c). */
  lemma TransposeReadsMirror<T>(mem: Store<T>, h: Dense, r: int, c: int)
    requires IsDenseFormat(h.format) && Valid(mem, h)
    requires 0 <= r < Rows(h) && 0 <= c < Cols(h)
    ensures Valid(mem, Transpose(h)) && 0 <= c < Rows(Transpose(h)) && 0 <= r < Cols(Transpose(h))
    ensures Read(mem, Transpose(h), c, r) == Read(mem, h, r, c)
  {
    PrintIndexResolvesTransposition(h, r, c);
  }

  // ---------------------------------------------------------------------
  // Constructors
  // ---------------------------------------------------------------------

  /** Offset arithmetic on a raw pointer; null may only be advanced by 0. */
  function Advance(p: Ptr, k: int): Ptr
    requires p.At? || k == 0
  {
    match p
    case Null => Null
    case At(a, i) => At(a, i + k)
  }

  /** Wraps existing column-major memory without taking ownership. */
  function FromArray(p: Ptr, ld: int, rows: int, cols: int, loc: Location, device: int): (h: Dense)
    ensures h.memory.Some? ==> !h.memory.value.owning
    ensures Begin(h) == p
    ensures h.memory.Some? ==> forall i, j :: Address(h, i, j) == p.index + j * ld + i
    ensures Rows(h) == rows && Cols(h) == cols && h.format == ColMajor
    ensures h.location == loc && h.device == device && h.properties == 0 && !h.transposed
  {
    var memory := match p
      case Null => None
      case At(a, i) => Some(Ref(a, i, false));
    Dense(memory, 0, ld, ColMajor, rows, cols, loc, device, false, 0)
  }

  /** Allocates a newArena arena of rows*cols elements (the allocator hands out
      the id `newArena`) and addresses it contiguously from element 0. Format,
      transposition and properties are kept. */
  function Reallocate(h: Dense, rows: int, cols: int, loc: Location, device: int, newArena: ArenaId): (r: Result<Dense>)
    ensures r.Err? <==> rows == 0 || cols == 0
    ensures r.Err? ==> r.error == BadArgument
    ensures r.Ok? ==> r.value.memory == Some(Ref(newArena, 0, true)) && Begin(r.value) == At(newArena, 0)
    ensures r.Ok? ==> r.value.storedRows == rows && r.value.storedCols == cols
    ensures r.Ok? ==> r.value.location == loc && r.value.device == (if loc == Host then 0 else device)
    ensures r.Ok? ==> r.value.format == h.format && r.value.transposed == h.transposed && r.value.properties == h.properties
    ensures r.Ok? ==> Contiguous(r.value)
  {
    if rows == 0 || cols == 0 then Err(BadArgument)
    else
      Ok(h.(memory := Some(Ref(newArena, 0, true)),
            ld := if h.format == ColMajor then rows else cols,
            offset := 0,
            device := if loc == Host then 0 else device,
            location := loc,
            storedRows := rows,
            storedCols := cols))
  }

  /** The leading dimension equals the minor extent of the layout. */
  predicate Contiguous(h: Dense)
  {
    (h.format == ColMajor ==> h.ld == h.storedRows) && (h.format == RowMajor ==> h.ld == h.storedCols)
  }

  /** A reallocated dense handle addresses exactly the elements 0 .. rows*cols-1
      of its newArena arena, each of them once. */
  lemma ReallocateFillsArena(h: Dense, rows: int, cols: int, loc: Location, device: int, newArena: ArenaId)
    requires rows > 0 && cols > 0
    ensures Reallocate(h, rows, cols, loc, device, newArena).Ok?
    ensures FitsIn(Reallocate(h, rows, cols, loc, device, newArena).value, rows * cols)
    ensures Address(Reallocate(h, rows, cols, loc, device, newArena).value, rows - 1, cols - 1) == rows * cols - 1
    ensures forall i, j, i', j' ::
      InStored(Reallocate(h, rows, cols, loc, device, newArena).value, i, j) &&
      InStored(Reallocate(h, rows, cols, loc, device, newArena).value, i', j') &&
      Address(Reallocate(h, rows, cols, loc, device, newArena).value, i, j) ==
      Address(Reallocate(h, rows, cols, loc, device, newArena).value, i', j')
      ==> i == i' && j == j'
  {
    var r := Reallocate(h, rows, cols, loc, device, newArena).value;
    PackedGridFills(r);
    PackedGridUnique(r);
  }

  /** The conditions under which a handle packs its stored elements densely
      from element 0: its leading dimension is its minor extent. */
  predicate PackedFromZero(r: Dense)
  {
    && r.memory.Some? && r.memory.value.base == 0 && r.offset == 0
    && r.storedRows > 0 && r.storedCols > 0
    && r.ld == if r.format == ColMajor then r.storedRows else r.storedCols
  }

  /** A packed handle's last stored element is element rows*cols-1, so the
      handle fits in rows*cols elements. */
  lemma PackedGridFills(r: Dense)
    requires PackedFromZero(r)
    ensures Address(r, r.storedRows - 1, r.storedCols - 1) == r.storedRows * r.storedCols - 1
    ensures FitsIn(r, r.storedRows * r.storedCols)
  {
    var rows, cols := r.storedRows, r.storedCols;
    if r.format == ColMajor {
      assert Address(r, rows - 1, cols - 1) == (cols - 1) * rows + rows - 1;
    } else {
      assert Address(r, rows - 1, cols - 1) == (rows - 1) * cols + cols - 1;
    }
  }

  /** A packed handle addresses no element twice. */
  lemma PackedGridUnique(r: Dense)
    requires PackedFromZero(r)
    ensures forall i, j, i', j' ::
      InStored(r, i, j) && InStored(r, i', j') && Address(r, i, j) == Address(r, i', j') ==> i == i' && j == j'
  {
    forall i, j, i', j' | InStored(r, i, j) && InStored(r, i', j') && Address(r, i, j) == Address(r, i', j')
      ensures i == i' && j == j'
    {
      if r.format == ColMajor {
        MixedRadixUnique(j, i, j', i', r.storedRows);
      } else {
        MixedRadixUnique(i, j, i', j', r.storedCols);
      }
    }
  }

  /** Digits below the radix determine a two-digit number uniquely. */
  lemma MixedRadixUnique(hi: int, lo: int, hi': int, lo': int, n: int)
    requires 0 <= lo < n && 0 <= lo' < n && hi >= 0 && hi' >= 0
    requires hi * n + lo == hi' * n + lo'
    ensures hi == hi' && lo == lo'
  {
    if hi < hi' {
      MulLeMul(hi + 1, hi', n);
      assert false;
    } else if hi' < hi {
      MulLeMul(hi' + 1, hi, n);
      assert false;
    }
  }

  /** The allocating constructor. */
  function Allocate(rows: int, cols: int, loc: Location, device: int, newArena: ArenaId): (r: Result<Dense>)
    ensures r.Err? <==> rows == 0 || cols == 0
    ensures r.Err? ==> r.error == BadArgument
    ensures r.Ok? ==> r.value.format == ColMajor && r.value.ld == rows && r.value.offset == 0
    ensures r.Ok? ==> r.value.memory == Some(Ref(newArena, 0, true))
    ensures r.Ok? ==> Rows(r.value) == rows && Cols(r.value) == cols && r.value.properties == 0
    ensures r.Ok? ==> r.value.location == loc && r.value.device == (if loc == Host then 0 else device)
    ensures r.Ok? ==> !r.value.transposed && Contiguous(r.value)
  {
    if rows == 0 || cols == 0 then Err(BadArgument)
    else Reallocate(Empty(), rows, cols, loc, device, newArena)
  }

  /** Stored offset of the top-left corner of a block, per the layout. */
  function BlockOffset(source: Dense, firstRow: int, firstCol: int): int
  {
    if source.format == ColMajor then source.offset + firstCol * source.ld + firstRow
    else source.offset + firstRow * source.ld + firstCol
  }

  predicate OnDiagonal(b: SubBlock)
  {
    b.firstRow == b.firstCol && b.lastRow == b.lastCol
  }

  /** The sub-block constructor. It checks no bounds. Its properties start
      at 0 (the constructor leaves them uninitialised) and a block on the
      diagonal then receives Symmetric and Hermitian from the source through
      `Set`, which refuses Hermitian on a real element type. */
  function SubMatrix(ty: Scalar, source: Dense, b: SubBlock): (r: Result<Dense>)
    ensures r.Err? <==> OnDiagonal(b) && Is(source, Hermitian) && !IsComplex(ty)
    ensures r.Err? ==> r.error == BadArgument
    ensures r.Ok? ==> r.value.memory == source.memory && r.value.ld == source.ld && r.value.format == source.format
    ensures r.Ok? ==> r.value.location == source.location && r.value.device == source.device
    ensures r.Ok? ==> r.value.transposed == source.transposed
    ensures r.Ok? ==> r.value.storedRows == b.lastRow - b.firstRow && r.value.storedCols == b.lastCol - b.firstCol
    ensures r.Ok? ==> (Is(r.value, Symmetric) <==> OnDiagonal(b) && Is(source, Symmetric))
    ensures r.Ok? ==> (Is(r.value, Hermitian) <==> OnDiagonal(b) && Is(source, Hermitian))
    ensures r.Ok? ==> !Is(r.value, General) && !Is(r.value, Packed)
  {
    var h := Dense(source.memory, BlockOffset(source, b.firstRow, b.firstCol), source.ld, source.format,
                   b.lastRow - b.firstRow, b.lastCol - b.firstCol,
                   source.location, source.device, source.transposed, 0);
    if OnDiagonal(b) then
      var h1 := if Is(source, Symmetric) then Set(ty, h, Symmetric).value else h;
      if Is(source, Hermitian) then Set(ty, h1, Hermitian) else Ok(h1)
    else Ok(h)
  }

  /** Stored element (i, j) of a block is stored element (firstRow + i,
      firstCol + j) of its source, whatever the layout. */
  lemma SubMatrixAddresses(ty: Scalar, source: Dense, b: SubBlock, i: int, j: int)
    requires source.memory.Some? && SubMatrix(ty, source, b).Ok?
    ensures Address(SubMatrix(ty, source, b).value, i, j) == Address(source, b.firstRow + i, b.firstCol + j)
  {
    var sub := SubMatrix(ty, source, b).value;
    if source.format == ColMajor {
      calc {
        Address(sub, i, j);
        source.memory.value.base + source.offset + b.firstCol * source.ld + b.firstRow + (j * source.ld + i);
        { assert (b.firstCol + j) * source.ld == b.firstCol * source.ld + j * source.ld; }
        Address(source, b.firstRow + i, b.firstCol + j);
      }
    } else {
      calc {
        Address(sub, i, j);
        source.memory.value.base + source.offset + b.firstRow * source.ld + b.firstCol + (i * source.ld + j);
        { assert (b.firstRow + i) * source.ld == b.firstRow * source.ld + i * source.ld; }
        Address(source, b.firstRow + i, b.firstCol + j);
      }
    }
  }

  predicate BlockInside(source: Dense, b: SubBlock)
  {
    0 <= b.firstRow <= b.lastRow <= source.storedRows && 0 <= b.firstCol <= b.lastCol <= source.storedCols
  }

  /** A block inside its source's stored extents stays inside the arena. */
  lemma SubMatrixFits(ty: Scalar, source: Dense, b: SubBlock, sub: Dense, len: int)
    requires FitsIn(source, len) && BlockInside(source, b) && SubMatrix(ty, source, b) == Ok(sub)
    ensures FitsIn(sub, len)
  {
    assert sub.offset >= 0 by {
      if source.format == ColMajor {
        MulLeMul(0, b.firstCol, source.ld);
      } else {
        MulLeMul(0, b.firstRow, source.ld);
      }
    }
    if sub.storedRows > 0 && sub.storedCols > 0 {
      SubMatrixAddresses(ty, source, b, sub.storedRows - 1, sub.storedCols - 1);
      FitsInBounds(source, len, b.firstRow + sub.storedRows - 1, b.firstCol + sub.storedCols - 1);
    }
  }

  /** A write is seen by every handle that addresses the same arena element. */
  lemma WriteSeen<T>(mem: Store<T>, h: Dense, i: int, j: int, g: Dense, k: int, l: int, v: T)
    requires Valid(mem, h) && InStored(h, i, j) && Valid(mem, g) && InStored(g, k, l)
    requires h.memory.value.arena == g.memory.value.arena && Address(h, i, j) == Address(g, k, l)
    ensures Valid(WriteStored(mem, h, i, j, v), g)
    ensures ReadStored(WriteStored(mem, h, i, j, v), g, k, l) == v
  {
    var a := h.memory.value.arena;
    FitsInBounds(h, |mem[a]|, i, j);
    var mem' := WriteStored(mem, h, i, j, v);
    assert mem'[a] == mem[a][Address(h, i, j) := v];
  }

  /** A block reads its source's elements. */
  lemma SubMatrixSharesElements<T>(ty: Scalar, mem: Store<T>, source: Dense, b: SubBlock, sub: Dense, i: int, j: int)
    requires Valid(mem, source) && BlockInside(source, b) && SubMatrix(ty, source, b) == Ok(sub)
    requires InStored(sub, i, j)
    ensures Valid(mem, sub) && InStored(source, b.firstRow + i, b.firstCol + j)
    ensures ReadStored(mem, sub, i, j) == ReadStored(mem, source, b.firstRow + i, b.firstCol + j)
  {
    SubMatrixFits(ty, source, b, sub, |mem[source.memory.value.arena]|);
    SubMatrixAddresses(ty, source, b, i, j);
  }

  /** A write through a block is seen through its source. */
  lemma SubMatrixWriteVisible<T>(ty: Scalar, mem: Store<T>, source: Dense, b: SubBlock, sub: Dense, i: int, j: int, v: T)
    requires Valid(mem, source) && BlockInside(source, b) && SubMatrix(ty, source, b) == Ok(sub)
    requires InStored(sub, i, j)
    ensures Valid(mem, sub) && InStored(source, b.firstRow + i, b.firstCol + j)
    ensures Valid(WriteStored(mem, sub, i, j, v), source)
    ensures ReadStored(WriteStored(mem, sub, i, j, v), source, b.firstRow + i, b.firstCol + j) == v
  {
    var a := source.memory.value.arena;
    SubMatrixFits(ty, source, b, sub, |mem[a]|);
    SubMatrixAddresses(ty, source, b, i, j);
    assert sub.memory == source.memory;
    WriteSeen(mem, sub, i, j, source, b.firstRow + i, b.firstCol + j, v);
  }

  // ---------------------------------------------------------------------
  // Cloning, moving, aliasing, releasing
  // ---------------------------------------------------------------------

  /** Makes a handle another reference to the source's arena: every field is
      taken from the source. */
  function CloneFrom(source: Dense): (r: Dense)
    ensures Begin(r) == Begin(source) && Rows(r) == Rows(source) && Cols(r) == Cols(source)
    ensures forall p :: Is(r, p) == Is(source, p)
    ensures r.memory == source.memory && r.offset == source.offset && r.ld == source.ld
    ensures r.format == source.format && r.transposed == source.transposed
    ensures r.location == source.location && r.device == source.device && r.properties == source.properties
  {
    source
  }

  /** The bounds check of the sub-block clone, against the logical extents. */
  predicate CloneBlockInRange(source: Dense, b: SubBlock)
  {
    && 0 <= b.firstRow <= Rows(source) && 0 <= b.lastRow <= Rows(source)
    && 0 <= b.firstCol <= Cols(source) && 0 <= b.lastCol <= Cols(source)
  }

  /** Sub-block clone as written: the row-major branch multiplies the leading
      dimension by the first column where the first row belongs. */
  function CloneFromBlockAsWritten(source: Dense, b: SubBlock): (r: Result<Dense>)
    ensures r.Err? <==> !CloneBlockInRange(source, b)
    ensures r.Err? ==> r.error == BadArgument
    ensures r.Ok? ==> r.value.properties == source.properties && r.value.memory == source.memory
    ensures r.Ok? ==> r.value.storedRows == b.lastRow - b.firstRow && r.value.storedCols == b.lastCol - b.firstCol
    ensures r.Ok? ==> r.value.(offset := source.offset, storedRows := source.storedRows, storedCols := source.storedCols) == source
    ensures r.Ok? ==> r.value.format == ColMajor ==> r.value.offset == source.offset + b.firstCol * source.ld + b.firstRow
    ensures r.Ok? ==> r.value.format == RowMajor ==> r.value.offset == source.offset + b.firstCol * source.ld + b.firstCol
  {
    if !CloneBlockInRange(source, b) then Err(BadArgument)
    else
      var off := if source.format == ColMajor then source.offset + b.firstCol * source.ld + b.firstRow
                 else source.offset + b.firstCol * source.ld + b.firstCol;
      Ok(source.(offset := off, storedRows := b.lastRow - b.firstRow, storedCols := b.lastCol - b.firstCol))
  }

  /** A 3x3 row-major matrix at the start of arena 0. */
  function RowMajorExample(): Dense
  {
    Dense(Some(Ref(0, 0, true)), 0, 3, RowMajor, 3, 3, Host, 0, false, 0)
  }

  /** Concrete input on which the written clone starts at the wrong element:
      the 3x3 row-major example, block rows [1,3) and columns [0,2). The
      clone starts at offset 0, element (0,0) of the source, where the block
      starts at offset 3, element (1,0). */
  lemma CloneFromBlockAsWrittenMisaddresses()
    ensures CloneFromBlockAsWritten(RowMajorExample(), SubBlock(1, 3, 0, 2))
            == Ok(Dense(Some(Ref(0, 0, true)), 0, 3, RowMajor, 2, 2, Host, 0, false, 0))
    ensures BlockOffset(RowMajorExample(), 1, 0) == 3
  {
    assert CloneBlockInRange(RowMajorExample(), SubBlock(1, 3, 0, 2));
  }

  /** Sub-block clone with the row-major offset using the first row. */
  function CloneFromBlock(source: Dense, b: SubBlock): (r: Result<Dense>)
    ensures r.Err? <==> !CloneBlockInRange(source, b)
    ensures r.Err? ==> r.error == BadArgument
    ensures r.Ok? ==> r.value.properties == source.properties && r.value.memory == source.memory
    ensures r.Ok? ==> r.value.storedRows == b.lastRow - b.firstRow && r.value.storedCols == b.lastCol - b.firstCol
    ensures r.Ok? ==> r.value.(offset := source.offset, storedRows := source.storedRows, storedCols := source.storedCols) == source
  {
    if !CloneBlockInRange(source, b) then Err(BadArgument)
    else
      Ok(source.(offset := BlockOffset(source, b.firstRow, b.firstCol),
                 storedRows := b.lastRow - b.firstRow, storedCols := b.lastCol - b.firstCol))
  }

  /** The corrected clone addresses the same elements as the sub-block
      constructor: stored (i, j) is stored (firstRow + i, firstCol + j). */
  lemma CloneFromBlockAddresses(source: Dense, b: SubBlock, i: int, j: int)
    requires source.memory.Some? && CloneFromBlock(source, b).Ok?
    ensures Address(CloneFromBlock(source, b).value, i, j) == Address(source, b.firstRow + i, b.firstCol + j)
    ensures forall ty :: SubMatrix(ty, source, b).Ok? ==>
      Address(SubMatrix(ty, source, b).value, i, j) == Address(CloneFromBlock(source, b).value, i, j)
  {
    var h := CloneFromBlock(source, b).value;
    if source.format == ColMajor {
      assert (b.firstCol + j) * source.ld == b.firstCol * source.ld + j * source.ld;
    } else {
      assert (b.firstRow + i) * source.ld == b.firstRow * source.ld + i * source.ld;
    }
    forall ty | SubMatrix(ty, source, b).Ok?
      ensures Address(SubMatrix(ty, source, b).value, i, j) == Address(h, i, j)
    {
      SubMatrixAddresses(ty, source, b, i, j);
    }
  }

  /** Resets to the empty state; the storage format is kept. */
  function Unlink(h: Dense): (r: Dense)
    ensures r == Empty().(format := h.format)
    ensures IsEmpty(r) && Begin(r) == Null
  {
    h.(offset := 0, ld := 0, storedRows := 0, storedCols := 0, location := Host,
       device := 0, transposed := false, properties := 0, memory := None)
  }

  lemma UnlinkIdempotent(h: Dense)
    ensures Unlink(Unlink(h)) == Unlink(h)
    ensures Unlink(h) == Empty() <==> h.format == ColMajor
  {
  }

  /** Exchanges two handles field by field. */
  function Swap(first: Dense, second: Dense): (r: (Dense, Dense))
    ensures r.0 == second && r.1 == first
  {
    (second, first)
  }

  lemma SwapInvolution(first: Dense, second: Dense)
    ensures var (a, b) := Swap(first, second); Swap(a, b) == (first, second)
  {
  }

  /** The move constructor: start empty and swap with the other handle. */
  function MoveConstruct(other: Dense): (r: (Dense, Dense))
    ensures r.0 == other && r.1 == Empty()
  {
    Swap(Empty(), other)
  }

  /** Moves a handle into a destination: the destination clones the caller,
      then the caller is unlinked. Returns (destination, caller). */
  function MoveTo(caller: Dense, destination: Dense): (r: (Dense, Dense))
    ensures r.0 == caller
    ensures r.1 == Unlink(caller) && IsEmpty(r.1) && r.1.memory.None?
  {
    (CloneFrom(caller), Unlink(caller))
  }

  /** The donor checks of `use_memory_from`, in order. */
  function DonorCheck(donor: Dense, rows: int, cols: int, off: int): Option<Error>
  {
    if donor.offset != 0 then Some(BadArgument)
    else if (donor.format == ColMajor && donor.ld != donor.storedRows) ||
            (donor.format == RowMajor && donor.ld != donor.storedCols) then Some(BadArgument)
    else if donor.storedRows * donor.storedCols < off + rows * cols then Some(BadArgument)
    else None
  }

  /** Reinterprets a contiguous donor's memory, from element `off` on, as a
      column-major rows x cols matrix. The alias is built by the array
      constructor and so does not own the memory. */
  function UseMemoryFrom(donor: Dense, rows: int, cols: int, off: int): (r: Result<Dense>)
    requires donor.memory.None? && DonorCheck(donor, rows, cols, off).None? ==> off == 0  // a null donor pointer cannot be advanced
    ensures r.Err? <==> donor.offset != 0 || !Contiguous(donor) || donor.storedRows * donor.storedCols < off + rows * cols
    ensures r.Err? ==> r.error == BadArgument
    ensures r.Ok? ==> r.value.format == ColMajor && !r.value.transposed && r.value.properties == 0
    ensures r.Ok? ==> r.value.offset == 0 && r.value.ld == rows && Rows(r.value) == rows && Cols(r.value) == cols
    ensures r.Ok? ==> r.value.location == donor.location && r.value.device == donor.device
    ensures r.Ok? && donor.memory.Some? ==>
      && r.value.memory.Some? && !r.value.memory.value.owning
      && r.value.memory.value.arena == donor.memory.value.arena
      && forall i, j :: Address(r.value, i, j) == Address(donor, 0, 0) + off + j * rows + i
  {
    match DonorCheck(donor, rows, cols, off)
    case Some(e) => Err(e)
    case None => Ok(FromArray(Advance(Begin(donor), off), rows, rows, cols, donor.location, donor.device))
  }

  /** An alias that passed the capacity check lies inside the donor's arena. */
  lemma UseMemoryFromFits<T>(mem: Store<T>, donor: Dense, rows: int, cols: int, off: int)
    requires Valid(mem, donor) && IsDenseFormat(donor.format)
    requires donor.storedRows >= 0 && donor.storedCols >= 0
    requires rows >= 0 && cols >= 0 && off >= 0
    requires UseMemoryFrom(donor, rows, cols, off).Ok?
    ensures Valid(mem, UseMemoryFrom(donor, rows, cols, off).value)
  {
    var alias := UseMemoryFrom(donor, rows, cols, off).value;
    var len := |mem[donor.memory.value.arena]|;
    var base := donor.memory.value.base;
    if rows > 0 && cols > 0 {
      assert donor.storedRows > 0 && donor.storedCols > 0 by {
        if donor.storedRows == 0 || donor.storedCols == 0 {
          assert donor.storedRows * donor.storedCols == 0;
          MulLeMul(1, cols, rows);
          assert false;
        }
      }
      var R, C := donor.storedRows, donor.storedCols;
      assert Address(donor, R - 1, C - 1) == base + R * C - 1 by {
        if donor.format == ColMajor {
          assert (C - 1) * R == R * C - R;
        } else {
          assert (R - 1) * C == R * C - C;
        }
      }
      assert Address(alias, rows - 1, cols - 1) == base + off + rows * cols - 1 by {
        assert (cols - 1) * rows == rows * cols - rows;
      }
    }
  }

  // ---------------------------------------------------------------------
  // Location and format changes
  // ---------------------------------------------------------------------

  /** What a change of location does before any data is moved. */
  datatype LocationStep =
    | Unchanged
    | Relabel(handle: Dense)               // an empty handle only changes metadata
    | Migrate(location: Location, device: int)  // allocate, copy and install (not modelled)

  /** The early exits of a change of location. Asking for the host forces
      the device to 0 only when the handle already is on the host. */
  function SetLocation(h: Dense, newLocation: Location, device: int): (r: LocationStep)
    ensures r.Unchanged? <==> newLocation == h.location && (if newLocation == Host then h.device == 0 else device == h.device)
    ensures r.Relabel? <==> !r.Unchanged? && IsEmpty(h)
    ensures r.Relabel? ==> r.handle.(location := h.location, device := h.device) == h && r.handle.location == newLocation
    ensures r.Relabel? ==> r.handle.device == (if newLocation == h.location && newLocation == Host then 0 else device)
    ensures r.Migrate? ==> r.location == newLocation
    ensures r.Migrate? ==> r.device == (if newLocation == h.location && newLocation == Host then 0 else device)
  {
    var device' := if newLocation == h.location && newLocation == Host then 0 else device;
    if newLocation == h.location && device' == h.device then Unchanged
    else if IsEmpty(h) then Relabel(h.(location := newLocation, device := device'))
    else Migrate(newLocation, device')
  }

  /** Asking for the current location and device changes nothing, unless a
      host handle carries a non-zero device id. */
  lemma SetLocationIdempotent(h: Dense)
    ensures SetLocation(h, h.location, h.device).Unchanged? <==> !(h.location == Host && h.device != 0)
  {
  }

  datatype FormatStep = FormatUnchanged | Convert(format: Format)

  /** The early exit of a change of storage format. */
  function SetFormat(h: Dense, newFormat: Format): (r: FormatStep)
    ensures r.FormatUnchanged? <==> newFormat == h.format
    ensures r.Convert? ==> r.format == newFormat
  {
    if newFormat == h.format then FormatUnchanged else Convert(newFormat)
  }
}
