/** The 32-bit `flag_refcnt` of a cached leaf: a use count in the low 31 bits and the
    "deleted" mark in bit 31 of the same word. */
module LeafWord {
  import opened MachineInts

  const DELETE_BIT: nat := 0x8000_0000

  predicate IsDelete(w: Word) { w >= DELETE_BIT }

  function RefCount(w: Word): nat { w % DELETE_BIT }

  function SetDelete(w: Word): Word { if IsDelete(w) then w else w + DELETE_BIT }

  /** `++flag_refcnt` and `--flag_refcnt` on an unsigned 32-bit word. */
  function Inc(w: Word): Word { (w + 1) % TWO32 }

  function Dec(w: Word): Word { (w + TWO32 - 1) % TWO32 }

  /** Taking a reference leaves the mark alone and adds one to the count exactly while the
      count has room; the 2^31st reference carries into the mark. */
  lemma IncExact(w: Word)
    ensures RefCount(w) < DELETE_BIT - 1 <==>
            (IsDelete(Inc(w)) == IsDelete(w) && RefCount(Inc(w)) == RefCount(w) + 1)
  {
  }

  /** Dropping a held reference leaves the mark alone; dropping one too many does not. */
  lemma DecExact(w: Word)
    ensures RefCount(w) > 0 <==>
            (IsDelete(Dec(w)) == IsDelete(w) && RefCount(Dec(w)) == RefCount(w) - 1)
  {
  }

  lemma SetDeleteKeepsCount(w: Word)
    ensures IsDelete(SetDelete(w)) && RefCount(SetDelete(w)) == RefCount(w)
  {
  }
}
