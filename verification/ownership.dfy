/**
 * Which handles keep an arena alive. A handle keeps an arena alive when it
 * refers to it through an owning reference (a shared pointer whose deleter
 * frees the arena); an arena whose count of such handles drops to zero is
 * released. Caller-supplied memory and aliases have a no-op deleter and
 * never count.
 */
module Ownership {
  import opened Exceptions
  import opened Types
  import opened DenseMatrix

  /** The handle holds an owning reference to arena a. */
  predicate Holds(h: Dense, a: ArenaId)
  {
    h.memory.Some? && h.memory.value.arena == a && h.memory.value.owning
  }

  /** 1 when the handle holds arena a, else 0. */
  function Share(h: Dense, a: ArenaId): (n: nat)
    ensures n == 1 <==> Holds(h, a)
    ensures n <= 1
  {
    if Holds(h, a) then 1 else 0
  }

  /** The number of handles of a collection that keep arena a alive. */
  function Owners(hs: seq<Dense>, a: ArenaId): (n: nat)
    ensures n <= |hs|
    ensures n == 0 <==> forall i :: 0 <= i < |hs| ==> !Holds(hs[i], a)
    decreases |hs|
  {
    if hs == [] then 0 else Owners(hs[..|hs| - 1], a) + Share(hs[|hs| - 1], a)
  }

  /** The count of a concatenation is the sum of the counts. */
  lemma {:induction false} OwnersAppend(hs: seq<Dense>, gs: seq<Dense>, a: ArenaId)
    ensures Owners(hs + gs, a) == Owners(hs, a) + Owners(gs, a)
    decreases |gs|
  {
    if gs == [] {
      assert hs + gs == hs;
    } else {
      assert (hs + gs)[..|hs + gs| - 1] == hs + gs[..|gs| - 1];
      OwnersAppend(hs, gs[..|gs| - 1], a);
    }
  }

  /** Replacing one handle changes the count by what the old and the new
      handle hold, and by nothing else. */
  lemma OwnersReplace(hs: seq<Dense>, j: int, h: Dense, a: ArenaId)
    requires 0 <= j < |hs|
    ensures Owners(hs[j := h], a) == Owners(hs, a) - Share(hs[j], a) + Share(h, a)
  {
    assert hs == hs[..j] + [hs[j]] + hs[j + 1..];
    assert hs[j := h] == hs[..j] + [h] + hs[j + 1..];
    OwnersAppend(hs[..j] + [hs[j]], hs[j + 1..], a);
    OwnersAppend(hs[..j], [hs[j]], a);
    OwnersAppend(hs[..j] + [h], hs[j + 1..], a);
    OwnersAppend(hs[..j], [h], a);
    assert [hs[j]][..0] == [] && [h][..0] == [];
  }

  /** Unlinking a handle gives up its arena and nothing else. */
  lemma UnlinkReleases(hs: seq<Dense>, j: int, a: ArenaId)
    requires 0 <= j < |hs|
    ensures Owners(hs[j := Unlink(hs[j])], a) == Owners(hs, a) - Share(hs[j], a)
  {
    OwnersReplace(hs, j, Unlink(hs[j]), a);
  }

  /** Moving handle i into handle j: the moved arena keeps its count (one
      holder replaces the other), and the arena the destination held loses
      the destination. */
  lemma MoveToTransfersOwnership(hs: seq<Dense>, i: int, j: int, a: ArenaId)
    requires 0 <= i < |hs| && 0 <= j < |hs| && i != j
    ensures var (d, c) := MoveTo(hs[i], hs[j]);
      Owners(hs[j := d][i := c], a) == Owners(hs, a) - Share(hs[j], a)
  {
    var (d, c) := MoveTo(hs[i], hs[j]);
    OwnersReplace(hs, j, d, a);
    OwnersReplace(hs[j := d], i, c, a);
  }

  /** A clone is one more holder of the source's arena. */
  lemma CloneFromRetains(hs: seq<Dense>, source: Dense, a: ArenaId)
    ensures Owners(hs + [CloneFrom(source)], a) == Owners(hs, a) + Share(source, a)
  {
    OwnersAppend(hs, [CloneFrom(source)], a);
    assert [CloneFrom(source)][..0] == [];
  }

  /** A sub-block copies its source's shared pointer, so it is one more
      holder of the source's arena. */
  lemma SubMatrixRetains(hs: seq<Dense>, ty: Scalar, source: Dense, b: SubBlock, a: ArenaId)
    requires SubMatrix(ty, source, b).Ok?
    ensures Owners(hs + [SubMatrix(ty, source, b).value], a) == Owners(hs, a) + Share(source, a)
  {
    OwnersAppend(hs, [SubMatrix(ty, source, b).value], a);
    assert [SubMatrix(ty, source, b).value][..0] == [];
  }

  /** An alias built over a donor's memory never keeps any arena alive. */
  lemma AliasDoesNotRetain(hs: seq<Dense>, donor: Dense, rows: int, cols: int, off: int, a: ArenaId)
    requires donor.memory.None? && DonorCheck(donor, rows, cols, off).None? ==> off == 0
    requires UseMemoryFrom(donor, rows, cols, off).Ok?
    ensures Owners(hs + [UseMemoryFrom(donor, rows, cols, off).value], a) == Owners(hs, a)
  {
    var alias := UseMemoryFrom(donor, rows, cols, off).value;
    OwnersAppend(hs, [alias], a);
    assert [alias][..0] == [];
    assert !Holds(alias, a);
  }

  /** Reallocation gives up the old arena and makes the handle the one
      holder of the new one. */
  lemma ReallocateReplacesArena(hs: seq<Dense>, j: int, rows: int, cols: int, loc: Location, device: int,
                                newArena: ArenaId, a: ArenaId)
    requires 0 <= j < |hs| && Owners(hs, newArena) == 0
    requires Reallocate(hs[j], rows, cols, loc, device, newArena).Ok?
    ensures var hs' := hs[j := Reallocate(hs[j], rows, cols, loc, device, newArena).value];
      && Owners(hs', newArena) == 1
      && (a != newArena ==> Owners(hs', a) == Owners(hs, a) - Share(hs[j], a))
  {
    OwnersReplace(hs, j, Reallocate(hs[j], rows, cols, loc, device, newArena).value, a);
    OwnersReplace(hs, j, Reallocate(hs[j], rows, cols, loc, device, newArena).value, newArena);
  }

  /** The allocating constructor makes the new handle the one holder of the
      fresh arena and leaves every other count as it was. */
  lemma AllocateOwnsArena(hs: seq<Dense>, rows: int, cols: int, loc: Location, device: int,
                          newArena: ArenaId, a: ArenaId)
    requires Owners(hs, newArena) == 0
    requires Allocate(rows, cols, loc, device, newArena).Ok?
    ensures var hs' := hs + [Allocate(rows, cols, loc, device, newArena).value];
      && Owners(hs', newArena) == 1
      && (a != newArena ==> Owners(hs', a) == Owners(hs, a))
  {
    var h := Allocate(rows, cols, loc, device, newArena).value;
    OwnersAppend(hs, [h], a);
    OwnersAppend(hs, [h], newArena);
    assert [h][..0] == [];
  }

  /** A move construction hands the other handle's share to the new one, so
      no arena gains or loses a holder. */
  lemma MoveConstructKeepsOwners(hs: seq<Dense>, j: int, a: ArenaId)
    requires 0 <= j < |hs|
    ensures var (made, other) := MoveConstruct(hs[j]);
      Owners(hs[j := other] + [made], a) == Owners(hs, a)
  {
    var (made, other) := MoveConstruct(hs[j]);
    OwnersReplace(hs, j, other, a);
    OwnersAppend(hs[j := other], [made], a);
    assert [made][..0] == [];
  }
}
