/**
 * The buffer address cache: 64 slots, and a 64-bit word with a bit for each slot in use.
 *
 * The slot bit is written `1 << i`, a shift of a 32-bit int. `intShift` chooses between the bit that is
 * meant and the one a machine yields that shifts 32-bit ints modulo 32: bit 31 then sign-extends over the
 * upper half of the word, and slot i + 32 shares the bit of slot i.
 */
module SlotCache {
  import opened RequestKeys

  type u32 = n: int | 0 <= n < 0x1_0000_0000

  const SLOTS := 64

  datatype Mapping = Mapping(id: u32, paddr: u64)

  /** What the static initializer leaves in a slot: only the first one is marked. */
  function Unused(i: nat): Mapping {
    Mapping(if i == 0 then 0xFFFF_FFFF else 0, 0)
  }

  function FirstBits(n: nat): (bits: set<nat>)
    ensures forall b: nat :: b in bits <==> Below(b, n)
  {
    set b: nat | b < n && Below(b, n)
  }

  predicate Below(b: nat, n: nat) { b < n }

  /** The positions of the bits of `1 << i` in a 64-bit word. */
  function SlotBits(i: nat, intShift: bool): set<nat> {
    if !intShift then {i}
    else if i % 32 == 31 then FirstBits(SLOTS) - FirstBits(31)
    else {i % 32}
  }

  function Capacity(intShift: bool): nat { if intShift then 32 else SLOTS }

  /** The word once the first `n` slots were taken one after another. */
  function WordOf(n: nat, intShift: bool): set<nat> {
    if intShift && n == 32 then FirstBits(SLOTS) else FirstBits(n)
  }

  lemma WordOneMore(n: nat, intShift: bool)
    requires n < Capacity(intShift)
    ensures WordOf(n, intShift) + SlotBits(n, intShift) == WordOf(n + 1, intShift)
  {
  }

  /** Which slots look taken. */
  lemma TakenSlots(n: nat, intShift: bool, i: nat)
    requires n <= Capacity(intShift) && i < SLOTS
    ensures WordOf(n, intShift) * SlotBits(i, intShift) != {} <==> if intShift then i % 32 < n else i < n
  {
    var word, bits := WordOf(n, intShift), SlotBits(i, intShift);
    if !intShift {
      assert i in bits;
      assert i < n ==> i in word * bits;
    } else {
      assert i % 32 in bits;
      assert i % 32 < n ==> i % 32 in word * bits;
      assert i % 32 >= n ==> word * bits == {};
    }
  }

  // Lookups, on the list of the ids stored so far

  /** With the int shift, a lookup of id 0 can hit a slot that was never filled. */
  predicate HitsUnusedSlot(stored: seq<u32>, id: u32, intShift: bool) {
    intShift && id == 0 && id !in stored && stored != []
  }

  function StoredAfter(stored: seq<u32>, id: u32, intShift: bool): seq<u32> {
    if id in stored || HitsUnusedSlot(stored, id, intShift) || |stored| >= Capacity(intShift) then stored
    else stored + [id]
  }

  function Answer(stored: seq<u32>, id: u32, intShift: bool, phys: u32 -> u64): u64 {
    if HitsUnusedSlot(stored, id, intShift) then 0 else phys(id)
  }

  ghost predicate Distinct(stored: seq<u32>) {
    forall i, j :: 0 <= i < j < |stored| ==> stored[i] != stored[j]
  }

  class Cache {
    const mappings: array<Mapping>
    var current: set<nat>
    const intShift: bool
    /** The physical address that attaching to a buffer yields. */
    const phys: u32 -> u64
    ghost var stored: seq<u32>

    /** The slots in use are a prefix, match the word, and hold distinct ids with their addresses. */
    ghost predicate Valid()
      reads this, mappings
    {
      && mappings.Length == SLOTS && |stored| <= Capacity(intShift) && Distinct(stored)
      && current == WordOf(|stored|, intShift)
      && forall i :: 0 <= i < SLOTS ==>
           mappings[i] == if i < |stored| then Mapping(stored[i], phys(stored[i])) else Unused(i)
    }

    constructor (intShift: bool, phys: u32 -> u64)
      ensures Valid() && stored == [] && this.intShift == intShift && this.phys == phys
    {
      this.intShift, this.phys := intShift, phys;
      mappings := new Mapping[SLOTS](i => Unused(if i < 0 then 0 else i));
      current, stored := {}, [];
    }

    method FindBufferById(id: u32) returns (slot: int)
      requires Valid()
      modifies this`current, this`stored, mappings
      ensures Valid() && stored == StoredAfter(old(stored), id, intShift)
      ensures slot == -1 || 0 <= slot < SLOTS
      ensures slot == -1 <==> id !in stored && !HitsUnusedSlot(stored, id, intShift)
      ensures slot >= 0 ==> mappings[slot].paddr == Answer(old(stored), id, intShift, phys)
    {
      var i := 0;
      while i < SLOTS
        invariant 0 <= i <= SLOTS && Valid() && stored == old(stored)
        invariant forall k :: 0 <= k < i && k < |stored| ==> stored[k] != id
        invariant HitsUnusedSlot(stored, id, intShift) ==> i <= 32
      {
        TakenSlots(|stored|, intShift, i);
        if id == mappings[i].id && current * SlotBits(i, intShift) != {} {
          if i < |stored| {
            assert stored[i] == id;
          }
          return i;
        }
        i := i + 1;
      }
      assert id !in stored;
      i := 0;
      while i < SLOTS
        invariant 0 <= i <= SLOTS && Valid() && stored == old(stored)
        invariant i <= |stored| || |stored| == Capacity(intShift)
      {
        TakenSlots(|stored|, intShift, i);
        if current * SlotBits(i, intShift) == {} {
          mappings[i] := Mapping(id, phys(id));
          WordOneMore(i, intShift);
          current := current + SlotBits(i, intShift);
          stored := stored + [id];
          return i;
        }
        i := i + 1;
      }
      slot := -1;
    }

    method BufferIdToPaddr(id: u32) returns (paddr: u64)
      requires Valid()
      modifies this`current, this`stored, mappings
      ensures Valid() && stored == StoredAfter(old(stored), id, intShift)
      ensures paddr == Answer(old(stored), id, intShift, phys)
    {
      var slot := FindBufferById(id);
      if slot >= 0 {
        paddr := mappings[slot].paddr;
      } else {
        paddr := phys(id);
      }
    }
  }

  /** The ids stored after a sequence of lookups on a new cache. */
  function StoredBy(ids: seq<u32>, intShift: bool): seq<u32> {
    if ids == [] then [] else StoredAfter(StoredBy(ids[..|ids| - 1], intShift), ids[|ids| - 1], intShift)
  }

  ghost predicate AllFresh(ids: seq<u32>, intShift: bool, phys: u32 -> u64) {
    forall k :: 0 <= k < |ids| ==> Answer(StoredBy(ids[..k], intShift), ids[k], intShift, phys) == phys(ids[k])
  }

  lemma {:induction false} FirstIdIsStored(ids: seq<u32>, intShift: bool)
    requires ids != []
    ensures ids[0] in StoredBy(ids, intShift)
  {
    if |ids| == 1 {
      assert StoredBy(ids[..0], intShift) == [];
      assert StoredBy(ids, intShift) == [ids[0]];
    } else {
      FirstIdIsStored(ids[..|ids| - 1], intShift);
    }
  }

  lemma {:induction false} ZeroNotStoredLater(ids: seq<u32>)
    requires ids != [] && ids[0] != 0
    ensures 0 !in StoredBy(ids, true)
  {
    if |ids| == 1 {
      assert StoredBy(ids[..0], true) == [];
      assert StoredBy(ids, true) == [ids[0]];
    } else {
      ZeroNotStoredLater(ids[..|ids| - 1]);
      FirstIdIsStored(ids[..|ids| - 1], true);
    }
  }

  /**
   * Every lookup of a run, hit or overflow, answers what a fresh attach would: always with one bit per slot;
   * with the int shift exactly if buffer 0 is not looked up, or is the first one, or lies at address 0.
   */
  lemma AnswersAreFresh(ids: seq<u32>, intShift: bool, phys: u32 -> u64)
    ensures AllFresh(ids, intShift, phys) <==> !intShift || 0 !in ids || ids[0] == 0 || phys(0) == 0
  {
    if intShift && 0 in ids && ids[0] == 0 {
      forall k | 0 <= k < |ids|
        ensures !HitsUnusedSlot(StoredBy(ids[..k], true), ids[k], true)
      {
        if k > 0 {
          FirstIdIsStored(ids[..k], true);
        }
      }
    } else if intShift && 0 in ids && phys(0) != 0 {
      var k :| 0 <= k < |ids| && ids[k] == 0;
      ZeroNotStoredLater(ids[..k]);
      FirstIdIsStored(ids[..k], true);
      assert Answer(StoredBy(ids[..k], true), ids[k], true, phys) != phys(ids[k]);
    }
  }

  /** Such a run: a first buffer, then buffer 0, which is reported at address 0. */
  lemma BufferZeroAfterAnother(phys: u32 -> u64)
    requires phys(0) != 0
    ensures Answer(StoredBy([5], true), 0, true, phys) == 0 != phys(0)
    ensures !AllFresh([5, 0], true, phys)
  {
    FirstIdIsStored([5], true);
    ZeroNotStoredLater([5]);
    AnswersAreFresh([5, 0], true, phys);
  }

  lemma StoredMembers(ids: seq<u32>, intShift: bool)
    ensures forall x :: x in StoredBy(ids, intShift) ==> x in ids
  {
    if ids != [] {
      StoredMembers(ids[..|ids| - 1], intShift);
    }
  }

  /** All 64 slots are used, one for each of the first 64 buffers; with the int shift, 32 of them. */
  lemma {:induction false} FirstBuffersAreStored(ids: seq<u32>, intShift: bool)
    requires Distinct(ids) && (intShift ==> 0 !in ids)
    ensures
      var slots := if intShift then 32 else 64;
      StoredBy(ids, intShift) == if |ids| <= slots then ids else ids[..slots]
  {
    if ids != [] {
      var before, last := ids[..|ids| - 1], ids[|ids| - 1];
      FirstBuffersAreStored(before, intShift);
      assert last !in before;
      assert before + [last] == ids;
      StoredMembers(before, intShift);
    }
  }
}
