/** The byte format of the calibration image of storage_manager.c: how a registry of keyed
    boxes is printed, and what parsing an image does. */
module StorageFormat {
  import opened Checksum
  import opened Int32

  const DEFAULT_KEY := 29681
  const NUM_STORAGE_BOXES := 20

  datatype Error = Success | InvalidParameter | CalibrationLoad | CalibrationLen

  // ---------------------------------------------------------------- byte layout

  /** `struct data_header_t`: three little-endian 32-bit words, 12 bytes. */
  datatype Header = Header(size: int, checksum: int, key: int)

  function EncodeWord(x: int): (b: seq<Byte>)
    ensures |b| == 4
  {
    [x % 256, x / 256 % 256, x / 256 / 256 % 256, x / 256 / 256 / 256 % 256]
  }

  function WordAt(mem: seq<Byte>, pos: nat): (r: int)
    requires pos + 4 <= |mem|
    ensures 0 <= r < 0x1_0000_0000
  {
    mem[pos] + 256 * mem[pos + 1] as int + 65536 * mem[pos + 2] as int + 16777216 * mem[pos + 3] as int
  }

  function EncodeHeader(hd: Header): (b: seq<Byte>)
    ensures |b| == 12
  {
    EncodeWord(hd.size) + EncodeWord(hd.checksum) + EncodeWord(hd.key)
  }

  function HeaderAt(mem: seq<Byte>, pos: nat): Header
    requires pos + 12 <= |mem|
  {
    Header(Wrap32(WordAt(mem, pos)), WordAt(mem, pos + 4), WordAt(mem, pos + 8))
  }

  lemma WordValue(x: int)
    ensures x % 256 + 256 * (x / 256 % 256) + 65536 * (x / 256 / 256 % 256)
      + 16777216 * (x / 256 / 256 / 256 % 256) == x % 0x1_0000_0000
  {
    var q1 := x / 256;
    var q2 := q1 / 256;
    var q3 := q2 / 256;
    var q4 := q3 / 256;
    assert x == 0x1_0000_0000 * q4 + (16777216 * (q3 % 256) + 65536 * (q2 % 256) + 256 * (q1 % 256) + x % 256);
  }

  lemma WordRoundTrip(x: int, mem: seq<Byte>, pos: nat)
    requires pos + 4 <= |mem| && mem[pos..pos + 4] == EncodeWord(x)
    ensures WordAt(mem, pos) == x % 0x1_0000_0000
  {
    var w := mem[pos..pos + 4];
    WordValue(x);
    assert mem[pos] == w[0] && mem[pos + 1] == w[1] && mem[pos + 2] == w[2] && mem[pos + 3] == w[3];
  }

  ghost predicate ValidHeader(hd: Header) {
    Fits32(hd.size) && 0 <= hd.checksum < 0x1_0000_0000 && 0 <= hd.key < 0x1_0000_0000
  }

  lemma SliceOf(mem: seq<Byte>, pos: nat, n: nat, off: nat, m: nat)
    requires pos + n <= |mem| && off + m <= n
    ensures mem[pos + off..pos + off + m] == mem[pos..pos + n][off..off + m]
  {
    var s := mem[pos..pos + n];
    assert forall i {:trigger s[i]} :: off <= i < off + m ==> s[i] == mem[pos + i];
    assert s[off..off + m] == mem[pos..pos + off + m][off..];
  }

  lemma EncodedWords(hd: Header)
    ensures EncodeHeader(hd)[0..4] == EncodeWord(hd.size)
    ensures EncodeHeader(hd)[4..8] == EncodeWord(hd.checksum)
    ensures EncodeHeader(hd)[8..12] == EncodeWord(hd.key)
  {
  }

  lemma HeaderWordsAt(hd: Header, mem: seq<Byte>, pos: nat)
    requires pos + 12 <= |mem| && mem[pos..pos + 12] == EncodeHeader(hd)
    ensures mem[pos..pos + 4] == EncodeWord(hd.size)
    ensures mem[pos + 4..pos + 8] == EncodeWord(hd.checksum)
    ensures mem[pos + 8..pos + 12] == EncodeWord(hd.key)
  {
    SliceOf(mem, pos, 12, 0, 4);
    SliceOf(mem, pos, 12, 4, 4);
    SliceOf(mem, pos, 12, 8, 4);
    EncodedWords(hd);
  }

  lemma HeaderRoundTrip(hd: Header, mem: seq<Byte>, pos: nat)
    requires ValidHeader(hd)
    requires pos + 12 <= |mem| && mem[pos..pos + 12] == EncodeHeader(hd)
    ensures HeaderAt(mem, pos) == hd
  {
    HeaderWordsAt(hd, mem, pos);
    WordRoundTrip(hd.size, mem, pos);
    WordRoundTrip(hd.checksum, mem, pos + 4);
    WordRoundTrip(hd.key, mem, pos + 8);
    StoredWord(hd.size);
  }

  /** A signed word read back from its 32 bits. */
  lemma StoredWord(x: int)
    requires Fits32(x)
    ensures Wrap32(x % 0x1_0000_0000) == x
  {
    WrapExact(x);
    WrapCongruent(x, x % 0x1_0000_0000);
  }

  // ---------------------------------------------------------------- registry

  /** One registered entity and the record its callbacks copy from and to. */
  datatype Box = Box(key: int, size: int, payload: seq<Byte>)

  /** One call of a load callback. */
  datatype Delivery = Delivery(key: int, data: seq<Byte>)

  datatype Outcome = Outcome(result: Error, calls: seq<Delivery>)

  ghost predicate ValidBox(b: Box) {
    0 <= b.key < 0x1_0000_0000 && b.size == |b.payload| < 0x8000_0000
  }

  ghost predicate Distinct(boxes: seq<Box>, i: nat, j: nat)
    requires i < |boxes| && j < |boxes|
  {
    boxes[i].key != boxes[j].key
  }

  ghost predicate DistinctKeys(boxes: seq<Box>) {
    forall i: nat, j: nat {:trigger Distinct(boxes, i, j)} :: i < j < |boxes| ==> Distinct(boxes, i, j)
  }

  ghost predicate ValidBoxes(boxes: seq<Box>) {
    && (forall i :: 0 <= i < |boxes| ==> ValidBox(boxes[i]))
    && DistinctKeys(boxes)
    && 12 + BodySize(boxes) < 0x8000_0000
  }

  predicate Has(reg: seq<Box>, key: int) {
    exists k :: 0 <= k < |reg| && reg[k].key == key
  }

  function BodySize(boxes: seq<Box>): int {
    if boxes == [] then 0 else 12 + boxes[0].size + BodySize(boxes[1..])
  }

  /** `inv_find_entry`: the first box with this key, or -1. */
  function Find(boxes: seq<Box>, key: int): (r: int)
    ensures -1 <= r < |boxes|
    ensures r >= 0 ==> boxes[r].key == key
  {
    if boxes == [] then -1
    else
      var r := Find(boxes[..|boxes| - 1], key);
      if r >= 0 then r else if boxes[|boxes| - 1].key == key then |boxes| - 1 else -1
  }

  lemma {:induction false} FindMisses(boxes: seq<Box>, key: int)
    requires forall k :: 0 <= k < |boxes| ==> boxes[k].key != key
    ensures Find(boxes, key) == -1
  {
    if boxes != [] {
      FindMisses(boxes[..|boxes| - 1], key);
    }
  }

  lemma {:induction false} FindFirst(boxes: seq<Box>, key: int, k: nat)
    requires k < |boxes| && boxes[k].key == key
    requires forall j :: 0 <= j < k ==> boxes[j].key != key
    ensures Find(boxes, key) == k
  {
    if k == |boxes| - 1 {
      FindMisses(boxes[..k], key);
    } else {
      FindFirst(boxes[..|boxes| - 1], key, k);
    }
  }

  lemma FindUnique(boxes: seq<Box>, k: nat)
    requires k < |boxes| && DistinctKeys(boxes)
    ensures Find(boxes, boxes[k].key) == k
  {
    forall j: nat | j < k
      ensures boxes[j].key != boxes[k].key
    {
      assert Distinct(boxes, j, k);
    }
    FindFirst(boxes, boxes[k].key, k);
  }

  /** The same keys and sizes are registered, in the same order. */
  ghost predicate Alike(a: seq<Box>, b: seq<Box>) {
    && |a| == |b|
    && forall k {:trigger a[k]} {:trigger b[k]} :: 0 <= k < |a| ==> a[k].key == b[k].key && a[k].size == b[k].size
  }

  lemma DistinctTail(boxes: seq<Box>)
    requires boxes != [] && DistinctKeys(boxes)
    ensures DistinctKeys(boxes[1..]) && !Has(boxes[1..], boxes[0].key)
  {
    forall i: nat, j: nat | i < j < |boxes| - 1
      ensures Distinct(boxes[1..], i, j)
    {
      assert Distinct(boxes, i + 1, j + 1);
    }
    forall i: nat | i < |boxes| - 1
      ensures boxes[1..][i].key != boxes[0].key
    {
      assert Distinct(boxes, 0, i + 1);
    }
  }

  lemma DistinctSame(a: seq<Box>, b: seq<Box>)
    requires Alike(b, a) && DistinctKeys(a)
    ensures DistinctKeys(b)
  {
    forall i: nat, j: nat | i < j < |b|
      ensures Distinct(b, i, j)
    {
      assert Distinct(a, i, j);
    }
  }

  lemma DistinctAppend(boxes: seq<Box>, b: Box)
    requires DistinctKeys(boxes) && !Has(boxes, b.key)
    ensures DistinctKeys(boxes + [b])
  {
    forall i: nat, j: nat | i < j < |boxes| + 1
      ensures Distinct(boxes + [b], i, j)
    {
      if j < |boxes| {
        assert Distinct(boxes, i, j);
      } else {
        assert boxes[i].key != b.key;
      }
    }
  }

  // ---------------------------------------------------------------- printing

  function BoxImage(b: Box): (r: seq<Byte>)
    ensures |r| == 12 + |b.payload|
  {
    EncodeHeader(Header(b.size, Hash(b.payload), b.key)) + b.payload
  }

  function Body(boxes: seq<Box>): seq<Byte> {
    if boxes == [] then [] else BoxImage(boxes[0]) + Body(boxes[1..])
  }

  function Image(boxes: seq<Box>): seq<Byte> {
    EncodeHeader(Header(12 + BodySize(boxes), Hash(Body(boxes)), DEFAULT_KEY)) + Body(boxes)
  }

  lemma {:induction false} BodyLength(boxes: seq<Box>)
    requires forall i :: 0 <= i < |boxes| ==> ValidBox(boxes[i])
    ensures |Body(boxes)| == BodySize(boxes) >= 12 * |boxes|
  {
    if boxes != [] {
      BodyLength(boxes[1..]);
    }
  }

  lemma Reassociate(a: seq<Byte>, b: seq<Byte>, c: seq<Byte>)
    ensures (a + b) + c == a + (b + c)
  {
  }

  lemma {:induction false} BodyBack(boxes: seq<Box>, b: Box)
    ensures Body(boxes + [b]) == Body(boxes) + BoxImage(b)
    ensures BodySize(boxes + [b]) == BodySize(boxes) + 12 + b.size
  {
    if boxes == [] {
      assert [b][1..] == [] && [] + [b] == [b];
    } else {
      assert (boxes + [b])[1..] == boxes[1..] + [b];
      BodyBack(boxes[1..], b);
      Reassociate(BoxImage(boxes[0]), Body(boxes[1..]), BoxImage(b));
    }
  }

  // ---------------------------------------------------------------- parsing

  /** The next inner header lies in memory, and a known key with its registered size has a size
      that is not negative. */
  predicate Readable(mem: seq<Byte>, pos: nat, len: int, reg: seq<Box>) {
    && len > 12
    && pos + len <= |mem|
    && var hd := HeaderAt(mem, pos);
    && var entry := Find(reg, hd.key);
    (entry >= 0 && hd.size == reg[entry].size ==> 0 <= hd.size)
  }

  /** One turn of the box loop: a known key whose payload is all there is checked and
      delivered; anything else is stepped over. */
  function LoadBox(mem: seq<Byte>, pos: nat, len: int, reg: seq<Box>): Outcome
    requires Readable(mem, pos, len, reg)
  {
    var hd := HeaderAt(mem, pos);
    var entry := Find(reg, hd.key);
    if entry < 0 || len - 12 < hd.size then Outcome(Success, [])
    else if hd.size != reg[entry].size then Outcome(CalibrationLen, [])
    else
      var data := mem[pos + 12..pos + 12 + hd.size];
      if Hash(data) != hd.checksum then Outcome(CalibrationLoad, [])
      else Outcome(Success, [Delivery(hd.key, data)])
  }

  /** The turn is the last one: an error, or the size runs past the end. */
  predicate LastTurn(mem: seq<Byte>, pos: nat, len: int, reg: seq<Box>)
    requires Readable(mem, pos, len, reg)
  {
    LoadBox(mem, pos, len, reg).result != Success || len - 12 < HeaderAt(mem, pos).size
  }

  /** Memory the box loop is entitled to: no inner header that it steps over claims a size of
      -12 or less. The source trusts the image for this. */
  ghost predicate Walkable(mem: seq<Byte>, pos: nat, len: int, reg: seq<Box>)
    decreases len
  {
    len <= 12 || (
      && Readable(mem, pos, len, reg)
      && (LastTurn(mem, pos, len, reg) || (
            && var size := HeaderAt(mem, pos).size;
            && -12 < size
            && Walkable(mem, pos + 12 + size, len - 12 - size, reg))))
  }

  /** The box loop: what is returned and which load callbacks are called, in order. */
  function LoadBoxes(mem: seq<Byte>, pos: nat, len: int, reg: seq<Box>): Outcome
    requires Walkable(mem, pos, len, reg)
    decreases len
  {
    if len <= 12 then Outcome(Success, [])
    else
      var one, size := LoadBox(mem, pos, len, reg), HeaderAt(mem, pos).size;
      if LastTurn(mem, pos, len, reg) then one
      else
        var tail := LoadBoxes(mem, pos + 12 + size, len - 12 - size, reg);
        Outcome(tail.result, one.calls + tail.calls)
  }

  /** The body region the outer header claims. */
  function Claimed(mem: seq<Byte>, size: int): seq<Byte>
    requires 12 <= |mem| && size <= |mem|
  {
    mem[12..if size < 12 then 12 else size]
  }

  /** What `inv_load_mpl_states` demands of its caller: `mem` is the readable memory from
      `data` on, at least `length` bytes, and the sizes it holds stay inside it. */
  ghost predicate LoadSafe(mem: seq<Byte>, length: nat, reg: seq<Box>) {
    && length <= |mem|
    && (length >= 12 && HeaderAt(mem, 0).key == DEFAULT_KEY ==>
      var hd := HeaderAt(mem, 0);
      && -0x7FFF_FFF4 <= hd.size <= |mem|
      && (Hash(Claimed(mem, hd.size)) == hd.checksum ==> Walkable(mem, 12, hd.size - 12, reg)))
  }

  function LoadImage(mem: seq<Byte>, length: nat, reg: seq<Box>): Outcome
    requires LoadSafe(mem, length, reg)
  {
    if length < 12 then Outcome(CalibrationLoad, [])
    else
      var hd := HeaderAt(mem, 0);
      if hd.key != DEFAULT_KEY then Outcome(CalibrationLoad, [])
      else if Hash(Claimed(mem, hd.size)) != hd.checksum then Outcome(CalibrationLoad, [])
      else LoadBoxes(mem, 12, hd.size - 12, reg)
  }

  // ---------------------------------------------------------------- effect on the loading side

  /** A load callback overwrites its record. */
  function Apply(reg: seq<Box>, call: Delivery): (r: seq<Box>)
    ensures Alike(r, reg)
  {
    var k := Find(reg, call.key);
    if k < 0 then reg else reg[k := reg[k].(payload := call.data)]
  }

  function ApplyAll(reg: seq<Box>, calls: seq<Delivery>): (r: seq<Box>)
    ensures Alike(r, reg)
    decreases |calls|
  {
    if calls == [] then reg else ApplyAll(Apply(reg, calls[0]), calls[1..])
  }

  // ---------------------------------------------------------------- layout

  ghost predicate HoldsAt(mem: seq<Byte>, pos: nat, bytes: seq<Byte>) {
    pos + |bytes| <= |mem| && mem[pos..pos + |bytes|] == bytes
  }

  /** Where the parts of a printed box and of what follows it lie in memory. */
  lemma BoxInPlace(mem: seq<Byte>, pos: nat, b: Box, rest: seq<Byte>)
    requires ValidBox(b)
    requires HoldsAt(mem, pos, BoxImage(b) + rest)
    ensures pos + 12 <= |mem| && HeaderAt(mem, pos) == Header(b.size, Hash(b.payload), b.key)
    ensures HoldsAt(mem, pos + 12, b.payload)
    ensures HoldsAt(mem, pos + 12 + b.size, rest)
  {
    var n := 12 + b.size + |rest|;
    SliceOf(mem, pos, n, 0, 12);
    SliceOf(mem, pos, n, 12, b.size);
    SliceOf(mem, pos, n, 12 + b.size, |rest|);
    assert (BoxImage(b) + rest)[12..12 + b.size] == b.payload;
    assert (BoxImage(b) + rest)[12 + b.size..n] == rest;
    HeaderRoundTrip(Header(b.size, Hash(b.payload), b.key), mem, pos);
  }

  /** Where the outer header and the body of a saved image lie. */
  lemma SavedLayout(saved: seq<Box>, slack: seq<Byte>)
    requires ValidBoxes(saved)
    ensures |Image(saved)| == 12 + BodySize(saved) == 12 + |Body(saved)|
    ensures HeaderAt(Image(saved) + slack, 0) == Header(12 + BodySize(saved), Hash(Body(saved)), DEFAULT_KEY)
    ensures HoldsAt(Image(saved) + slack, 12, Body(saved))
  {
    BodyLength(saved);
    var hd := Header(12 + BodySize(saved), Hash(Body(saved)), DEFAULT_KEY);
    assert (Image(saved) + slack)[..12] == EncodeHeader(hd);
    HeaderRoundTrip(hd, Image(saved) + slack, 0);
  }

  /** The boxes in the `len` bytes at `pos` load as `e`. */
  ghost predicate LoadsAs(mem: seq<Byte>, pos: nat, len: int, reg: seq<Box>, e: Outcome) {
    Walkable(mem, pos, len, reg) && LoadBoxes(mem, pos, len, reg) == e
  }
}
