/**
  The packet-id allocator of one connection: a bitset over ids 1..=65535 with a word cursor.
  Its abstract value is the set `used` of ids in use.
  */
module Ids {
  import opened Arith
  import opened Words

  const WORDS: nat := 1024

  /** The word that holds `id`; bit `k` of the bitset stands for id `k + 1`. */
  function WordOf(id: nat): nat
    requires 1 <= id
  {
    (id - 1) / WORD_BITS
  }

  function BitOf(id: nat): nat
    requires 1 <= id
  {
    (id - 1) % WORD_BITS
  }

  predicate IsId(id: nat) {
    1 <= id <= U16_MAX
  }

  /** How many words after the cursor, cyclically, the scan reaches word `w`. */
  function ScanDistance(cursor: nat, w: nat): nat
    requires cursor < WORDS && w < WORDS
  {
    if cursor <= w then w - cursor else w + WORDS - cursor
  }

  lemma IdIsDecidedByItsBit(a: nat, b: nat)
    requires 1 <= a && 1 <= b
    ensures a == b <==> WordOf(a) == WordOf(b) && BitOf(a) == BitOf(b)
  {
  }

  /** `r` is the lowest unused id at or after the cursor's word, or the lowest of all if none is there. */
  ghost predicate LowestFrom(r: nat, used: set<nat>, cursor: nat) {
    && IsId(r) && r !in used
    && (forall id: nat | IsId(id) && id !in used && cursor <= WordOf(id) :: cursor <= WordOf(r) && r <= id)
    && (WordOf(r) < cursor ==> forall id: nat | IsId(id) && id !in used :: r <= id)
  }

  /** The first unused id of a cyclic scan of words is that one. */
  lemma ScanFindsLowest(r: nat, used: set<nat>, cursor: nat)
    requires cursor < WORDS && IsId(r) && r !in used
    requires forall id: nat | IsId(id) && id !in used ::
               || ScanDistance(cursor, WordOf(r)) < ScanDistance(cursor, WordOf(id))
               || (WordOf(r) == WordOf(id) && r <= id)
    ensures LowestFrom(r, used, cursor)
  {
  }

  class PacketIds {
    const bits: array<nat>
    var cursor: nat
    var refusals: nat    // allocations that found every id in use

    ghost var used: set<nat>

    ghost predicate Words()
      reads bits
    {
      bits.Length == WORDS && forall i | 0 <= i < WORDS :: IsWord(bits[i])
    }

    predicate InUse(id: nat)
      requires bits.Length == WORDS && IsId(id)
      reads bits
    {
      Bit(bits[WordOf(id)], BitOf(id))
    }

    /** The bitset holds exactly the ids of `used`. */
    ghost predicate Valid()
      reads this, bits
    {
      && Words() && cursor < WORDS
      && (forall id | id in used :: IsId(id))
      && forall id: nat {:trigger InUse(id)} | IsId(id) :: InUse(id) == (id in used)
    }

    constructor ()
      ensures Valid() && used == {} && cursor == 0 && refusals == 0 && fresh(bits)
    {
      bits := new nat[WORDS](_ => 0);
      cursor, refusals := 0, 0;
      used := {};
      new;
      forall id: nat | IsId(id) ensures !InUse(id) { ZeroHasNoBits(BitOf(id)); }
    }

    /**
      The lowest unused id at or after the cursor's word, or the lowest one of all when there is none
      there; `None` exactly when every id is in use.
      */
    method Allocate() returns (r: Option<nat>)
      requires Valid()
      modifies this, bits
      ensures Valid()
      ensures r.None? <==> forall id: nat | IsId(id) :: id in old(used)
      ensures r.None? ==> used == old(used) && cursor == old(cursor)
      ensures refusals == old(refusals) + if r.None? then 1 else 0
      ensures r.Some? ==>
                && LowestFrom(r.value, old(used), old(cursor))
                && used == old(used) + {r.value}
                && cursor == (WordOf(r.value) + 1) % WORDS
    {
      r := FirstFree();
      if r.Some? {
        ScanFindsLowest(r.value, used, cursor);
        MarkUsed(WordOf(r.value), BitOf(r.value), r.value);
        cursor := (WordOf(r.value) + 1) % WORDS;
      } else {
        refusals := refusals + 1;
      }
    }

    /** The scan of `Allocate`: the first unused id in the order it visits them. */
    method FirstFree() returns (r: Option<nat>)
      requires Valid()
      ensures r.None? <==> forall id: nat | IsId(id) :: InUse(id)
      ensures r.Some? ==> IsId(r.value) && !InUse(r.value)
      ensures r.Some? ==> forall id: nat | IsId(id) && !InUse(id) ::
                  || ScanDistance(cursor, WordOf(r.value)) < ScanDistance(cursor, WordOf(id))
                  || (WordOf(r.value) == WordOf(id) && r.value <= id)
    {
      for offset := 0 to WORDS
        invariant forall id: nat | IsId(id) && ScanDistance(cursor, WordOf(id)) < offset :: InUse(id)
      {
        var idx := (cursor + offset) % WORDS;
        assert ScanDistance(cursor, idx) == offset;
        assert forall w: nat | w < WORDS :: ScanDistance(cursor, w) == offset ==> w == idx;
        r := FreeInWord(idx);
        if r.Some? {
          return;
        }
      }
      return None;
    }

    /** The lowest unused id of word `idx`; the top bit of the last word stands for no id. */
    method FreeInWord(idx: nat) returns (r: Option<nat>)
      requires Valid() && idx < WORDS
      ensures r.None? <==> forall id: nat | IsId(id) && WordOf(id) == idx :: InUse(id)
      ensures r.Some? ==> IsId(r.value) && WordOf(r.value) == idx && !InUse(r.value)
      ensures r.Some? ==> forall id: nat | IsId(id) && WordOf(id) == idx && !InUse(id) :: r.value <= id
    {
      var word := bits[idx];
      if word == U64_MAX {
        FullWord(idx);
        return None;
      }
      LowestClearBit(word);
      var bit := TrailingZeros(Not(word, WORD_BITS));
      var idOffset := idx * WORD_BITS + bit;
      assert WordOf(idOffset + 1) == idx && BitOf(idOffset + 1) == bit;
      if idOffset > 65534 {
        return None;
      }
      forall id: nat | IsId(id) && WordOf(id) == idx && !InUse(id) ensures idOffset + 1 <= id {
        assert !Bit(word, BitOf(id));
      }
      return Some(idOffset + 1);
    }

    lemma FullWord(idx: nat)
      requires bits.Length == WORDS && idx < WORDS && bits[idx] == U64_MAX
      ensures forall id: nat | IsId(id) && WordOf(id) == idx :: InUse(id)
    {
      WordRange();
      forall id: nat | IsId(id) && WordOf(id) == idx ensures InUse(id) {
        OnesHaveEveryBit(WORD_BITS, BitOf(id));
      }
    }

    /** `bits[idx] |= 1 << bit`. */
    method MarkUsed(idx: nat, bit: nat, ghost id: nat)
      requires Valid() && idx < WORDS && bit < WORD_BITS
      requires IsId(id) && WordOf(id) == idx && BitOf(id) == bit
      modifies this`used, bits
      ensures Valid() && used == old(used) + {id}
    {
      SetBit(bits[idx], bit);
      bits[idx] := Or(bits[idx], Pow2(bit));
      used := used + {id};
      forall other: nat | IsId(other) ensures InUse(other) == (other == id || old(InUse(other))) {
        IdIsDecidedByItsBit(other, id);
      }
    }

    /** Frees `id` and reports whether it was in use; id 0 names no packet. */
    method Release(id: nat) returns (wasSet: bool)
      requires Valid() && id <= U16_MAX
      modifies this, bits
      ensures Valid()
      ensures wasSet <==> id in old(used)
      ensures used == old(used) - {id} && refusals == old(refusals)
      ensures cursor == if id == 0 then old(cursor) else WordOf(id)
    {
      if id == 0 {
        return false;
      }
      var idx := WordOf(id);
      var bit := BitOf(id);
      TestBit(bits[idx], bit);
      wasSet := And(bits[idx], Pow2(bit)) != 0;
      assert wasSet == InUse(id);
      ClearBit(bits[idx], bit);
      bits[idx] := And(bits[idx], Not(Pow2(bit), WORD_BITS));
      forall other: nat | IsId(other) ensures InUse(other) == (other != id && old(InUse(other))) {
        IdIsDecidedByItsBit(other, id);
      }
      used := used - {id};
      cursor := idx;
    }

    /** After a release the next allocation takes an id of the same word, no greater than the one freed. */
    method ReleaseThenAllocate(id: nat) returns (next: nat)
      requires Valid() && IsId(id)
      modifies this, bits
      ensures Valid() && IsId(next)
      ensures WordOf(next) == WordOf(id) && next <= id
      ensures used == old(used) - {id} + {next} && next !in old(used) - {id}
    {
      var _ := Release(id);
      var r := Allocate();
      assert r.Some?;
      next := r.value;
    }
  }
}
