/** Thread identifiers as the Windows backend computes them: the DWORD the system hands out,
    sign-extended to the width of a pointer. */
module ThreadIds {
  import opened Words

  /** Reads the bits as a signed 32-bit number, sign-extends it and reads the result as unsigned 64-bit. */
  function DwordAsUintptr(value: Dword): Word {
    var signed32 := if value < DWORD_SIZE / 2 then value else value - DWORD_SIZE;
    if signed32 < 0 then signed32 + WORD_SIZE else signed32
  }

  /** Truncation recovers the DWORD, so the conversion is injective; only 0 becomes 0. */
  lemma SignExtensionIsFaithful(a: Dword, b: Dword)
    ensures DwordAsUintptr(a) % DWORD_SIZE == a
    ensures DwordAsUintptr(a) == DwordAsUintptr(b) <==> a == b
    ensures DwordAsUintptr(a) == 0 <==> a == 0
  {
  }

  /** The upper half of the DWORDs ends up at the top of the words. */
  lemma SignExtensionValue(a: Dword)
    ensures a < 0x8000_0000 ==> DwordAsUintptr(a) == a
    ensures a >= 0x8000_0000 ==> DwordAsUintptr(a) == 0xFFFF_FFFF_0000_0000 + a
  {
  }

  /** What the system promises about the live threads: their DWORD ids are distinct and not 0. */
  ghost predicate GoodIds(ids: seq<Dword>) {
    && (forall t :: 0 <= t < |ids| ==> ids[t] != 0)
    && (forall t, u :: 0 <= t < |ids| && 0 <= u < |ids| && ids[t] == ids[u] ==> t == u)
  }

  /** mulle_thread_id() as called by thread t. */
  function Id(ids: seq<Dword>, t: nat): Word
    requires t < |ids|
  {
    DwordAsUintptr(ids[t])
  }

  lemma IdsAreDistinct(ids: seq<Dword>)
    requires GoodIds(ids)
    ensures forall t :: 0 <= t < |ids| ==> Id(ids, t) != 0
    ensures forall t, u :: 0 <= t < |ids| && 0 <= u < |ids| && Id(ids, t) == Id(ids, u) ==> t == u
  {
    forall t, u | 0 <= t < |ids| && 0 <= u < |ids|
      ensures Id(ids, t) != 0 && (Id(ids, t) == Id(ids, u) ==> t == u)
    {
      SignExtensionIsFaithful(ids[t], ids[u]);
    }
  }
}
