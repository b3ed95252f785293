# LinAlg dense handles and backend facades in Dafny

This project models the core of the LinAlg C++ library:

- **The dense matrix handle (`Dense<T>`).** A handle is a record of metadata over a shared memory arena:
  - the arena reference;
  - offset and leading dimension;
  - storage format;
  - stored rows and columns;
  - location and device;
  - a transposition flag and a property bit field.

  The model covers every operation on that record:
  - construction: empty, allocating, wrapping an array, sub-block;
  - cloning, moving, swapping, reallocation, aliasing through `use_memory_from`, and unlinking;
  - transposition, extents and properties;
  - the early exits of a change of location or format;
  - the index formula the printing routine uses to find logical element (r, c).
- **`sparse2dense`.** This extracts a dense block from a CSR matrix. It is modelled as a method whose loops carry invariants, checked against a functional definition of the scan.
- **The descriptors** of `types.h`.
- **The `Dense<T>` facades of xGEMM, xGETRF, xGESV and xLASET.** Each facade checks shapes, derives the vendor call's arguments from handle metadata, and picks the host (reference BLAS/LAPACK) or GPU (CUBLAS/MAGMA) path or throws. A facade returns a `Run`: the vendor calls it makes, in order, and the exception it throws. The vendor kernels are not interpreted.

## Modelling choices

- **Memory.** Memory is a store mapping arena ids to sequences.
  - A handle's `Ref` names an arena, the element the shared pointer points at (`base`), and whether its deleter frees the arena (`owning`).
  - Wrapped arrays and `use_memory_from` aliases are non-owning, because their deleter is a no-op.
  - `Ownership.Owners` counts the handles that keep an arena alive.
- **Integers.** Handle fields are unbounded integers. Element values and the scalars of the facades are integers.
- **Errors.** Operations that throw return `Result` (`Ok` or `Err(BadArgument | Unimplemented | MathError(info))`).
- **Sub-block properties.** The sub-block constructor leaves the property bits uninitialised before it propagates Symmetric and Hermitian. The model starts them at 0. Propagating Hermitian onto a real element type throws from `set`, so that block is an `Err(BadArgument)`.
- **Property bits.** `dense.h` spells the properties in lower case, but `types.h` defines `General`, `Symmetric`, `Hermitian` and `Packed` as 0x01, 0x02, 0x04 and 0x08. The model uses those values.
- **Check helpers.** The `check_*` helpers of `utilities/checks.h` are not part of this model. Each facade takes them as a `Checks` record of functions that return the exception they throw.
  - `Backend.Sound` states what their names promise: a check that passes guarantees its condition. Lemmas about argument validity assume it.
  - `Backend.StrictChecks` is one concrete reading of the helpers.
- **Info values.** The `info` a kernel reports is a parameter.
- **Build flags.** The flags (HAVE_CUDA, HAVE_MIC, HAVE_MKL, HAVE_MAGMA, USE_MAGMA_GESV) are a `BuildConfig`. The build with checks enabled is the one modelled.
- **Sub-block clones keep every property.** `clone_from(source, sub_block)` copies every property bit of the source (`include/dense.h:561`, called at line 598), including Symmetric and Hermitian on blocks off the diagonal. The sub-block constructor, by contrast, re-derives them.
- **Unlinking keeps the format.** `unlink` keeps `_format` (`include/dense.h:1171-1181`), so an unlinked row-major handle is not `Empty()`.
- **GEMM and storage format.** The xGEMM facade does not look at the storage format. `Gemm.GemmOperandsAgree` therefore states the element correspondence for column-major operands only.
- **The third xGEMM overload** (`include/BLAS/gemm.h:417-467`) has the same body as the main one and is modelled by `Gemm.Gemm`.

## Model

| member | source | states |
|---|---|---|
| Types.TypeOfTags | include/types.h:49-74 | each of S_t, D_t, C_t, Z_t, I_t gets its own tag, every other type gets O, and exactly C and Z are complex |
| Types.BitsAreDistinctSingletons | include/types.h:82-87 | each property is one non-zero bit, and two different properties never share a bit |
| DenseMatrix.Empty | include/dense.h:234-249 | the default handle holds no memory (null start), has zero offset, leading dimension, extents, device and properties, is column-major, on the host and not transposed, and so is empty with no property set |
| DenseMatrix.Set | include/dense.h:1305-1323 | Hermitian on a non-complex type throws BadArgument; otherwise the property's bit becomes set, every other bit and every other field keep their value |
| DenseMatrix.Unset | include/dense.h:1330-1337 | the property's bit is cleared; every other bit and field is unchanged |
| DenseMatrix.SetUnsetKeepOthers | include/dense.h:183 | after setting or clearing p, `is(q)` for any other property q answers as before |
| DenseMatrix.TransposeInvolution | include/dense.h:147-152 | transposing twice is the identity, transposition swaps rows() and cols(), and is_empty() holds iff stored rows or cols is 0, before or after transposing |
| DenseMatrix.PrintIndexResolvesTransposition | include/dense.h:1236-1258 | the printing formula reads logical (r, c) at stored (c, r) of a transposed handle and at (r, c) otherwise, in both dense layouts; on the transposed handle it reads (c, r) where the original reads (r, c) |
| DenseMatrix.TransposeReadsMirror | include/dense.h:1233-1258 | reading element (c, r) of the transposed handle gives the value at (r, c) of the original |
| DenseMatrix.FromArray | include/dense.h:394-412 | the wrapped matrix is column-major, non-owning, starts at the given pointer, addresses (i, j) at pointer + j*ld + i, is not transposed and has no properties |
| DenseMatrix.Reallocate | include/dense.h:684-748 | zero rows or columns throw BadArgument; otherwise the handle owns a new arena from element 0 with the requested extents and location, device 0 on the host, a leading dimension that makes it contiguous, and format, transposition and properties untouched |
| DenseMatrix.ReallocateFillsArena | include/dense.h:698-704 | a reallocated handle addresses each of the arena elements 0 .. rows*cols-1 exactly once |
| DenseMatrix.Allocate | include/dense.h:350-366 | the allocating constructor throws BadArgument on a zero extent and otherwise yields an owning, contiguous, untransposed column-major rows x cols matrix with no properties |
| DenseMatrix.SubMatrix | include/dense.h:428-461 | the block shares arena, leading dimension, format, location, device and transposition with its source and has the block's extents; it is Symmetric (Hermitian) iff it lies on the diagonal and the source is, never General or Packed; a diagonal block of a Hermitian source of real type throws |
| DenseMatrix.SubMatrixAddresses | include/dense.h:441-447 | stored element (i, j) of a block is stored element (first_row+i, first_col+j) of its source, in both layouts |
| DenseMatrix.SubMatrixFits | include/dense.h:428-447 | a block inside its source's stored extents stays inside the source's arena |
| DenseMatrix.SubMatrixSharesElements | include/dense.h:414-419 | a block reads the same values as its source at the corresponding elements |
| DenseMatrix.SubMatrixWriteVisible | include/dense.h:414-419 | a write through a block is seen through its source, since no memory is copied |
| DenseMatrix.CloneFrom | include/dense.h:547-563 | the clone takes every field of the source: arena, offset, leading dimension, format, extents, location, device, transposition and properties |
| DenseMatrix.CloneFromBlockAsWritten | include/dense.h:577-611 | as written: out-of-range bounds (against the logical extents) throw BadArgument; otherwise every field except offset and extents is copied, the extents are the block's, the column-major offset is offset + first_col*ld + first_row and the row-major offset is offset + first_col*ld + first_col |
| DenseMatrix.CloneFromBlockAsWrittenMisaddresses | include/dense.h:604-605 | for a 3x3 row-major source and rows [1,3), columns [0,2), the clone starts at offset 0 (element (0,0)) where the block starts at offset 3 (element (1,0)) |
| DenseMatrix.CloneFromBlock | include/dense.h:587-609 | the corrected clone: same checks; every field except offset and extents copied from the source, the block's extents (its addressing is stated by CloneFromBlockAddresses) |
| DenseMatrix.CloneFromBlockAddresses | include/dense.h:600-606 | the corrected clone addresses stored (first_row+i, first_col+j) of the source at its (i, j), exactly as the sub-block constructor's block does |
| DenseMatrix.Unlink | include/dense.h:1166-1183 | the result is the empty handle except that it keeps the format; it is empty and refers to no arena |
| DenseMatrix.UnlinkIdempotent | include/dense.h:1171-1181 | unlinking twice is unlinking once, and an unlinked handle is the empty handle exactly when it was column-major |
| DenseMatrix.Swap | include/dense.h:311-328 | every field of the two handles is exchanged |
| DenseMatrix.SwapInvolution | include/dense.h:311-328 | swapping twice restores both handles |
| DenseMatrix.MoveConstruct | include/dense.h:263-271 | the new handle is the other one, and the other one is left empty |
| DenseMatrix.MoveTo | include/dense.h:655-663 | the destination becomes field-equal to the caller, and the caller is unlinked and refers to no arena |
| DenseMatrix.UseMemoryFrom | include/dense.h:765-797 | throws BadArgument iff the donor has an offset, is not contiguous, or has fewer than offset + rows*cols elements; otherwise a non-owning column-major rows x cols alias over the donor's arena with ld = rows, no offset, the donor's location and device, addressing (i, j) at donor element offset + j*rows + i |
| DenseMatrix.UseMemoryFromFits | include/dense.h:785-795 | an alias that passed the capacity check lies inside the donor's arena |
| DenseMatrix.SetLocation | include/dense.h:1121-1136 | nothing happens iff the location is the current one and the device matches (forced to 0 when both are host); an empty handle is only relabelled; anything else migrates; the new device is the requested one, forced to 0 only when the handle stays on the host |
| DenseMatrix.SetLocationIdempotent | include/dense.h:1126-1131 | asking for the current location and device is a no-op except for a host handle with a non-zero device id |
| DenseMatrix.SetFormat | include/dense.h:1191-1206 | asking for the current format does nothing; any other format is converted to |
| FormatConvert.Prepare | include/utilities/format_convert.h:53-89 | a transposed destination, a transposed source and a CSC source throw Unimplemented in that order, then a row range outside the source throws BadArgument, then a non-host operand throws Unimplemented; an empty destination is reallocated on the host to the block's extents, and a zero-extent block throws BadArgument there, as does a non-empty destination of other extents; the result is Ok exactly when every check passes on host operands and the extents match or the empty destination's block is non-empty |
| FormatConvert.PrepareStore | include/utilities/format_convert.h:77-83 | a reallocated destination starts zero-filled; a kept one keeps its contents |
| FormatConvert.ApplyAdds | include/utilities/format_convert.h:123 | performing the additions adds to each element exactly the sum of the values aimed at it (`+=`, not assignment) |
| FormatConvert.ApplyConcat | include/utilities/format_convert.h:100-131 | performing two runs of additions is performing their concatenation |
| FormatConvert.RowScanMembers | include/utilities/format_convert.h:102-129 | a row's scan adds an entry iff its shifted column is in [first_col, last_col) and no earlier entry of the row has column at or past last_col; the addition lands at (row-first_row, col-first_col) with the entry's value |
| FormatConvert.WindowMembers | include/utilities/format_convert.h:100-131 | the window's additions are exactly those of the scans of rows first_row .. last_row-1 |
| FormatConvert.RowScanInside | include/utilities/format_convert.h:107-121 | every addition of a row lands in that row of the block, inside the column window |
| FormatConvert.WindowInsideBlock | include/utilities/format_convert.h:100-121 | every addition lands inside the requested block |
| FormatConvert.ScanRow | include/utilities/format_convert.h:102-130 | the inner loop leaves the destination array equal to the functional row scan applied to it, with the position col_out*ld+row_out (column-major) or row_out*ld+col_out |
| FormatConvert.ScanWindow | include/utilities/format_convert.h:100-131 | the outer loop leaves the destination array equal to the functional window scan applied to it: each element gains the sum of the window's values aimed at it |
| FormatConvert.PreparedFits | include/utilities/format_convert.h:77-89 | the prepared destination lies inside its arena |
| FormatConvert.Sparse2Dense | include/utilities/format_convert.h:49-148 | throws exactly what the checks throw; on success returns the prepared destination, changes only its arena, and leaves there the starting contents plus, at every element, the values of all window entries aimed at it |
| Ownership.Owners | include/dense.h:201 | counts the handles that keep an arena alive; none does iff the count is 0 |
| Ownership.OwnersReplace | include/dense.h:311-328 | replacing one handle changes an arena's count by what the old and new handle hold, and by nothing else |
| Ownership.UnlinkReleases | include/dense.h:1181 | unlinking gives up exactly the handle's own share of its arena |
| Ownership.MoveToTransfersOwnership | include/dense.h:655-663 | a move leaves the moved arena's count unchanged and drops the destination's old arena by one holder |
| Ownership.CloneFromRetains | include/dense.h:552 | a clone is one more holder of the source's arena |
| Ownership.SubMatrixRetains | include/dense.h:430 | a sub-block is one more holder of the source's arena |
| Ownership.AliasDoesNotRetain | include/dense.h:408-410 | an alias from use_memory_from never keeps any arena alive |
| Ownership.ReallocateReplacesArena | include/dense.h:698-700 | reallocation releases the handle's old arena and makes it the one holder of the new one |
| Ownership.AllocateOwnsArena | include/dense.h:350-366 | the allocating constructor makes the new handle the one holder of the fresh arena and changes no other count |
| Ownership.MoveConstructKeepsOwners | include/dense.h:263-271 | a move construction leaves every arena's count unchanged |
| Backend.StrictChecks | include/LAPACK/gesv.h:138-145 | the strict reading of the check helpers lets through only what their names promise, and the device check passes iff all operands share location and device |
| Backend.ThenCheckInfo | include/LAPACK/getrf.h:270-272 | after the call, a non-zero info throws a math error carrying it; zero info throws nothing |
| Gemm.GemmChecks | include/BLAS/gemm.h:305-314 | the device check, then the output-transposition check, then a shape mismatch (BadArgument); passes iff all three pass |
| Gemm.Gemm | include/BLAS/gemm.h:301-353 | a failed check throws before any call; a call is made iff the checks pass and A is on the host or on the GPU of a CUDA build; on the host one reference BLAS call with m = A.rows(), n = B.cols(), k = B.rows(), each handle's start and leading dimension, and 'T' exactly for transposed operands; on the GPU in a CUDA build one CUBLAS call with A's device; any other location throws Unimplemented |
| Gemm.TransChar | include/BLAS/gemm.h:332-333 | the character is 'T' iff the handle is transposed and 'N' otherwise |
| Gemm.TransOp | include/BLAS/gemm.h:339-340 | the operation is CUBLAS_OP_T iff the handle is transposed |
| Gemm.GemmArgsValid | include/BLAS/gemm.h:321-335 | for column-major operands the host call satisfies every argument check of the reference xGEMM |
| Gemm.TransCharReadsLogicalElement | include/BLAS/gemm.h:332-333 | with a column-major operand, BLAS reads op(A)(r, c) at the element the handle's print formula names (r, c) |
| Gemm.GemmOperandsAgree | include/BLAS/gemm.h:321-335 | the host call reads op(A), op(B) and writes C at exactly the elements the handles name (r, c) |
| Gemm.GemmMixed | include/BLAS/gemm.h:357-413 | after the same checks, a non-host A or a build without MKL throws Unimplemented; otherwise, and only then, one MKL call with the main overload's arguments |
| Gemm.GemmMixedAgreesWithHost | include/BLAS/gemm.h:394-411 | wherever the mixed overload calls MKL, the main overload calls the reference BLAS with the same arguments |
| Getrf.GetrfChecks | include/LAPACK/getrf.h:214-241 | without CUDA a row-count mismatch with ipiv throws BadArgument; with CUDA a non-square A on the GPU or, for a non-empty ipiv, a row-count mismatch throws BadArgument, and an empty ipiv skips its transposition and size checks; in both builds the checks pass iff none of them fails |
| Getrf.GetrfHostRows | include/LAPACK/getrf.h:211-275 | a failed check throws before any call; a call is made iff the checks pass on the host or on the GPU of a CUDA build; the host path calls the reference routine with n = A.cols(), A's start and leading dimension and ipiv's start; the GPU path in a CUDA build calls CUBLAS on a square A; other locations throw Unimplemented; after a call a non-zero info throws a math error |
| Getrf.GetrfAsWritten | include/LAPACK/getrf.h:250-252 | as written: a call is made iff the checks pass on a supported location; the host routine is told m = A.cols() |
| Getrf.Getrf | include/LAPACK/getrf.h:243-253 | corrected: a call is made iff the checks pass on a supported location; the host routine is told m = A.rows() and n = A.cols() |
| Getrf.GetrfArgsValid | include/LAPACK/getrf.h:243-253 | on a column-major A the corrected host call satisfies the reference xGETRF argument checks and factors all stored rows and columns |
| Getrf.GetrfSquareUnaffected | include/LAPACK/getrf.h:250-252 | on a square A the code as written and the corrected facade coincide |
| Getrf.GetrfAsWrittenBreaksLda | include/LAPACK/getrf.h:251 | for a contiguous 2x3 host matrix the code as written calls the routine with m = 3 and lda = 2, which the reference routine rejects; the corrected facade passes m = 2 |
| Getrf.GetrfEmptyPivotUnchecked | include/LAPACK/getrf.h:219-239 | in a CUDA build the outcome does not depend on an empty pivot vector's extents or transposition |
| Gesv.GesvChecks | include/LAPACK/gesv.h:137-146 | passes iff the device, both format, both dimension and both transposition checks pass; otherwise the first failing check's exception is the result, in the order device, format of A, format of B, dimensions of B, dimensions of ipiv, transposition of A, transposition of B |
| Gesv.GpuSolve | include/LAPACK/gesv.h:168-209 | a non-square stored A throws BadArgument; otherwise an unpivoted CUBLAS GETRF, a non-zero info throwing before any solve, then a lower unit-diagonal and an upper non-unit left solve with alpha 1 on A and B |
| Gesv.Gesv | include/LAPACK/gesv.h:134-219 | a failed check throws before any call; on the host one solver call with n = A.rows(), nrhs = B.cols() and both leading dimensions, then the info check; on the GPU the GPU path, or nothing under USE_MAGMA_GESV; other locations throw Unimplemented |
| Gesv.GesvArgsValid | include/LAPACK/gesv.h:148-205 | on column-major operands every call of either path satisfies its reference argument checks: the host solver call, and on the GPU the unpivoted factorisation and both triangular solves |
| Gesv.GesvGpuFactorsLikeGetrf | include/LAPACK/gesv.h:182-195 | the GPU path starts with exactly the call and info check the GETRF facade makes for an empty pivot vector |
| Laset.Laset | include/LAPACK/laset.h:204-241 | a transposed A throws before any call; a call is made iff A passes that check on the host or on the GPU of a CUDA+MAGMA build; the host call covers the whole array ("A"), the GPU call in a CUDA+MAGMA build covers it with MagmaUpperLower; m and n are stored rows and cols for column-major and swapped otherwise; other locations throw Unimplemented |
| Laset.LasetCoversMatrix | include/LAPACK/laset.h:213-230 | for a dense layout the routine's m x n column-major array is exactly the stored matrix: each array element is one stored element at the same place, and every stored element is reached |

## Left out

- Allocation and deallocation (`host_make_shared`, `cuda_make_shared`, `mic_make_shared`) and the atomic reference counts of `std::shared_ptr`. Arenas are ids in a store, and ownership is the count of owning handles.
- The copy engine (`copy`, `copy_async`, streams) and `reallocate_like`. Only the early exits of `location()` and `format()` are modelled; the migration and conversion branches are the `Migrate` and `Convert` steps without their data movement.
- The console output of `print()`. Only its index formula is kept.
- Floating-point and complex arithmetic. Element values and scalars are integers.
- The raw FORTRAN, CUBLAS, MAGMA and MKL bindings, `include/BLAS/trsm.h` and `include/BLAS/blas.h`. Their calls appear as uninterpreted `Call` values.
- The `check_*` helpers. `utilities/checks.h` is not part of this model, so they are parameters.
- The `LINALG_NO_CHECKS` build, profiling headers, `include/utilities/stringformat.h` and exception message text.
- The `BufferType` and `BufferDirection` enumerations of `types.h`, which the modelled code does not use.
- The `use_memory_from` overloads taking a `SubBlock` (`include/dense.h:820-831`). They forward the block's row and column counts, and `SubBlock::rows()` is declared outside the modelled files. The overload without an offset (`include/dense.h:800-804`) is `UseMemoryFrom` with `off == 0`.
- Integer overflow of `I_t` in products such as `rows * cols` and offsets.
- DenseMatrix.Reallocate: a GPU or MIC location in a build without that support leaves the old arena in place in the code. The model always installs the new arena.
- DenseMatrix.MoveTo: a handle moved into itself ends up empty in the code. The model treats caller and destination as distinct values.
- FormatConvert.Sparse2Dense requires, once the argument checks pass, a well-formed CSR source whose shifted row starts lie inside the entry arrays, and a non-negative first row whenever rows are scanned. Otherwise the code reads out of bounds. Inputs the checks reject are not restricted.
- DenseMatrix.UseMemoryFrom requires a zero offset for a null donor that passes the checks. Advancing a null pointer by a non-zero offset is undefined in the code; a null donor that fails the checks is handled.
- FormatConvert.Sparse2Dense requires, once the argument checks pass, non-negative block extents for an empty destination. The reallocation check rejects only a zero extent, so a negative one passes it. With one negative extent the code then allocates a negative count; with both negative it returns a handle with negative extents and scans no row.
- FormatConvert.Sparse2Dense requires, once the argument checks pass, a non-empty destination to lie inside its arena.
- FormatConvert.Sparse2Dense: `Fills::zero` is declared outside the modelled files and is modelled as a zero fill.

## Findings

| source | as written | input that shows it | evidently intended | confidence | as-written member | corrected member |
|---|---|---|---|---|---|---|
| include/dense.h:604-605 | the row-major offset of `clone_from(source, sub_block)` is `offset + first_col*ld + first_col` | 3x3 row-major source, block rows [1,3), columns [0,2): the clone starts at element (0,0) instead of (1,0) | `offset + first_row*ld + first_col`, as the sub-block constructor computes it (include/dense.h:445-446) | high, not executed | DenseMatrix.CloneFromBlockAsWritten, DenseMatrix.CloneFromBlockAsWrittenMisaddresses | DenseMatrix.CloneFromBlock, DenseMatrix.CloneFromBlockAddresses |
| include/LAPACK/getrf.h:251 | the host xGETRF is called with `m = A.cols()` | contiguous 2x3 column-major host matrix (lda 2) with a 2x1 pivot vector: the call has m = 3 > lda, which reference xGETRF rejects; a 3x2 matrix would have only 2 of its 3 rows factored | `m = A.rows()`, the row count of A | medium, not executed | Getrf.GetrfAsWritten, Getrf.GetrfAsWrittenBreaksLda | Getrf.Getrf, Getrf.GetrfArgsValid |
