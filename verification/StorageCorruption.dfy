/** Damaged calibration images are rejected before any load callback runs. */
module StorageCorruption {
  import opened Checksum
  import opened Int32
  import opened StorageFormat

  /** An image whose outer checks pass. */
  ghost predicate Intact(mem: seq<Byte>, length: nat) {
    && 12 <= length <= |mem|
    && var hd := HeaderAt(mem, 0);
    && hd.key == DEFAULT_KEY
    && 12 <= hd.size <= |mem|
    && Hash(mem[12..hd.size]) == hd.checksum
  }

  ghost predicate Rejected(mem: seq<Byte>, length: nat, reg: seq<Box>) {
    LoadSafe(mem, length, reg) && LoadImage(mem, length, reg) == Outcome(CalibrationLoad, [])
  }

  lemma HeaderWords(mem: seq<Byte>, mem': seq<Byte>)
    requires 12 <= |mem| && 12 <= |mem'| && mem[..12] == mem'[..12]
    ensures HeaderAt(mem, 0) == HeaderAt(mem', 0)
  {
    assert forall i :: 0 <= i < 12 ==> mem[i] == mem[..12][i] && mem'[i] == mem'[..12][i];
  }

  /** Replacing the body of an intact image by anything that hashes differently gets it
      rejected before any load callback runs. */
  lemma BodyChangeRejected(mem: seq<Byte>, mem': seq<Byte>, length: nat, reg: seq<Box>)
    requires Intact(mem, length) && |mem'| == |mem| && mem'[..12] == mem[..12]
    requires Hash(mem'[12..HeaderAt(mem, 0).size]) != Hash(mem[12..HeaderAt(mem, 0).size])
    ensures Rejected(mem', length, reg)
  {
    HeaderWords(mem, mem');
  }

  /** `mem` with `burst` written over the bytes at `pos`. */
  function Splice(mem: seq<Byte>, pos: nat, burst: seq<Byte>): seq<Byte>
    requires pos + |burst| <= |mem|
  {
    mem[..pos] + burst + mem[pos + |burst|..]
  }

  lemma SpliceBody(mem: seq<Byte>, size: nat, pos: nat, burst: seq<Byte>)
    requires 12 <= pos && pos + |burst| <= size <= |mem|
    ensures |Splice(mem, pos, burst)| == |mem| && Splice(mem, pos, burst)[..12] == mem[..12]
    ensures mem[12..size] == mem[12..pos] + mem[pos..pos + |burst|] + mem[pos + |burst|..size]
    ensures Splice(mem, pos, burst)[12..size] == mem[12..pos] + burst + mem[pos + |burst|..size]
  {
  }

  lemma BurstChangesHash(mem: seq<Byte>, size: nat, pos: nat, burst: seq<Byte>)
    requires |burst| <= 5 && 12 <= pos && pos + |burst| <= size <= |mem|
    ensures Hash(Splice(mem, pos, burst)[12..size]) != Hash(mem[12..size])
      <==> Delta(mem[pos..pos + |burst|], burst) != 0
  {
    SpliceBody(mem, size, pos, burst);
    ShortBurst(mem[12..pos], mem[pos..pos + |burst|], burst, mem[pos + |burst|..size]);
  }

  /** Any change confined to five consecutive body bytes is rejected, unless its difference
      polynomial is zero. */
  lemma BurstRejected(mem: seq<Byte>, length: nat, pos: nat, burst: seq<Byte>, reg: seq<Box>)
    requires Intact(mem, length)
    requires |burst| <= 5 && 12 <= pos && pos + |burst| <= HeaderAt(mem, 0).size
    requires Delta(mem[pos..pos + |burst|], burst) != 0
    ensures Rejected(Splice(mem, pos, burst), length, reg)
  {
    BurstChangesHash(mem, HeaderAt(mem, 0).size, pos, burst);
    SpliceBody(mem, HeaderAt(mem, 0).size, pos, burst);
    BodyChangeRejected(mem, Splice(mem, pos, burst), length, reg);
  }

  lemma WordChanged(mem: seq<Byte>, pos: nat, i: nat, b: Byte)
    requires pos + 4 <= |mem| && pos <= i < pos + 4 && b != mem[i]
    ensures WordAt(mem[i := b], pos) != WordAt(mem, pos)
  {
  }

  lemma WordKept(mem: seq<Byte>, pos: nat, i: nat, b: Byte)
    requires pos + 4 <= |mem| && i < |mem| && !(pos <= i < pos + 4)
    ensures WordAt(mem[i := b], pos) == WordAt(mem, pos)
  {
  }

  lemma OtherWordsKept(mem: seq<Byte>, i: nat, b: Byte)
    requires 12 <= |mem| && 4 <= i < |mem|
    ensures HeaderAt(mem[i := b], 0).size == HeaderAt(mem, 0).size
    ensures i >= 8 ==> HeaderAt(mem[i := b], 0).checksum == HeaderAt(mem, 0).checksum
    ensures !(8 <= i < 12) ==> HeaderAt(mem[i := b], 0).key == HeaderAt(mem, 0).key
  {
    WordKept(mem, 0, i, b);
    if i >= 8 {
      WordKept(mem, 4, i, b);
    }
    if !(8 <= i < 12) {
      WordKept(mem, 8, i, b);
    }
  }

  /** Main result: changing any one byte of an intact image other than the four of its
      outer size field makes the load fail before any load callback runs. */
  lemma SingleByteRejected(mem: seq<Byte>, length: nat, i: nat, b: Byte, reg: seq<Box>)
    requires Intact(mem, length)
    requires 4 <= i < HeaderAt(mem, 0).size && b != mem[i]
    ensures Rejected(mem[i := b], length, reg)
  {
    var size := HeaderAt(mem, 0).size;
    var mem' := mem[i := b];
    if i < 8 {
      OtherWordsKept(mem, i, b);
      WordChanged(mem, 4, i, b);
      assert mem'[12..size] == mem[12..size];
    } else if i < 12 {
      WordChanged(mem, 8, i, b);
    } else {
      SingleByteChange(mem[12..size], i - 12, b);
      assert mem'[12..size] == mem[12..size][i - 12 := b];
      assert mem'[..12] == mem[..12];
      BodyChangeRejected(mem, mem', length, reg);
    }
  }

  /** What `inv_save_mpl_states` writes is intact. */
  lemma SavedIsIntact(saved: seq<Box>, slack: seq<Byte>, length: nat)
    requires ValidBoxes(saved) && 12 <= length <= |Image(saved)| + |slack|
    ensures Intact(Image(saved) + slack, length)
    ensures HeaderAt(Image(saved) + slack, 0).size == |Image(saved)|
  {
    SavedLayout(saved, slack);
  }
}
