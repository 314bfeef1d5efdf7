/** The calibration store of storage_manager.c: registration, saving and loading. */
module StorageManager {
  import opened Checksum
  import opened Int32
  import opened StorageFormat

  // ---------------------------------------------------------------- registries under load

  /** The outcome `e` after the load callbacks `done`. */
  ghost function Then(done: seq<Delivery>, e: Outcome): Outcome {
    Outcome(e.result, done + e.calls)
  }

  lemma {:induction false} ApplyAllConcat(reg: seq<Box>, a: seq<Delivery>, b: seq<Delivery>)
    ensures ApplyAll(reg, a + b) == ApplyAll(ApplyAll(reg, a), b)
    decreases |a|
  {
    if a == [] {
      assert a + b == b;
    } else {
      assert (a + b)[1..] == a[1..] + b;
      ApplyAllConcat(Apply(reg, a[0]), a[1..], b);
    }
  }

  lemma {:induction false} SameShape(a: seq<Box>, b: seq<Box>)
    requires Alike(a, b)
    ensures BodySize(a) == BodySize(b)
  {
    if a != [] {
      SameShape(a[1..], b[1..]);
    }
  }

  lemma {:induction false} SameFind(a: seq<Box>, b: seq<Box>, key: int)
    requires Alike(a, b)
    ensures Find(a, key) == Find(b, key)
  {
    if a != [] {
      SameFind(a[..|a| - 1], b[..|b| - 1], key);
    }
  }

  lemma FindNone(boxes: seq<Box>, key: int)
    ensures Has(boxes, key) <==> Find(boxes, key) >= 0
  {
    if Find(boxes, key) < 0 && Has(boxes, key) {
      var k :| 0 <= k < |boxes| && boxes[k].key == key;
      FindAt(boxes, k);
    }
  }

  lemma {:induction false} FindAt(boxes: seq<Box>, k: nat)
    requires k < |boxes|
    ensures Find(boxes, boxes[k].key) >= 0
  {
    if k < |boxes| - 1 {
      FindAt(boxes[..|boxes| - 1], k);
    }
  }

  lemma ThenThen(done: seq<Delivery>, one: seq<Delivery>, e: Outcome)
    ensures Then(done, Then(one, e)) == Then(done + one, e)
  {
  }

  /** Where the cursor goes after a box of this size: nowhere when the size runs past the end. */
  function NextPos(pos: nat, len: int, size: int): nat
    requires -12 < size
  {
    if len - 12 - size >= 0 then pos + 12 + size else pos
  }

  /** One turn splits the outcome into what it does itself and what is still to come.
      Callbacks change records only, so the turn does not depend on those already run. */
  lemma LoadTurn(mem: seq<Byte>, pos: nat, len: int, reg: seq<Box>, now: seq<Box>, e: Outcome)
    returns (one: Outcome, rest: Outcome)
    requires len > 12 && LoadsAs(mem, pos, len, reg, e)
    requires Alike(now, reg)
    ensures Readable(mem, pos, len, now) && one == LoadBox(mem, pos, len, now)
    ensures e == Then(one.calls, rest)
    ensures var size := HeaderAt(mem, pos).size;
      && (one.result != Success ==> rest == Outcome(one.result, []))
      && (one.result == Success ==>
            -12 < size && LoadsAs(mem, NextPos(pos, len, size), len - 12 - size, reg, rest))
  {
    SameFind(now, reg, HeaderAt(mem, pos).key);
    one := LoadBox(mem, pos, len, reg);
    var size := HeaderAt(mem, pos).size;
    if one.result != Success || len - 12 < size {
      rest := Outcome(one.result, []);
    } else {
      rest := LoadBoxes(mem, pos + 12 + size, len - 12 - size, reg);
    }
  }

  lemma StoreRecord(reg: seq<Box>, k: nat, data: seq<Byte>)
    requires ValidBoxes(reg) && k < |reg| && |data| == reg[k].size
    ensures ValidBoxes(reg[k := reg[k].(payload := data)])
    ensures BodySize(reg[k := reg[k].(payload := data)]) == BodySize(reg)
    ensures Apply(reg, Delivery(reg[k].key, data)) == reg[k := reg[k].(payload := data)]
  {
    FindUnique(reg, k);
    SameShape(reg, reg[k := reg[k].(payload := data)]);
    DistinctSame(reg, reg[k := reg[k].(payload := data)]);
  }

  lemma PrefixBody(boxes: seq<Box>, k: nat)
    requires k < |boxes|
    ensures Body(boxes[..k + 1]) == Body(boxes[..k]) + BoxImage(boxes[k])
    ensures BodySize(boxes[..k + 1]) == BodySize(boxes[..k]) + 12 + boxes[k].size
  {
    BodyOfAppend(boxes[..k + 1], boxes[..k], boxes[k]);
  }

  lemma BodyOfAppend(whole: seq<Box>, front: seq<Box>, b: Box)
    requires whole == front + [b]
    ensures Body(whole) == Body(front) + BoxImage(b)
    ensures BodySize(whole) == BodySize(front) + 12 + b.size
  {
    BodyBack(front, b);
  }

  lemma AppendBox(boxes: seq<Box>, b: Box)
    requires ValidBoxes(boxes) && ValidBox(b) && Find(boxes, b.key) == -1
    requires 12 + BodySize(boxes) + 12 + b.size < 0x8000_0000
    ensures ValidBoxes(boxes + [b]) && BodySize(boxes + [b]) == BodySize(boxes) + 12 + b.size
  {
    BodyBack(boxes, b);
    FindNone(boxes, b.key);
    DistinctAppend(boxes, b);
  }

  lemma {:induction false} SizeMonotone(boxes: seq<Box>, k: nat)
    requires forall i :: 0 <= i < |boxes| ==> ValidBox(boxes[i])
    requires k <= |boxes|
    ensures 0 <= BodySize(boxes[..k]) <= BodySize(boxes)
  {
    if k == 0 {
      BodyLength(boxes);
    } else {
      assert boxes[..k][1..] == boxes[1..][..k - 1];
      SizeMonotone(boxes[1..], k - 1);
    }
  }

  lemma NothingLeft(mem: seq<Byte>, pos: nat, len: int, reg: seq<Box>, e: Outcome)
    requires len <= 12 && LoadsAs(mem, pos, len, reg, e)
    ensures e == Outcome(Success, [])
  {
  }

  // ---------------------------------------------------------------- writing into a buffer

  method WriteBytes(data: array<Byte>, pos: nat, bytes: seq<Byte>)
    requires pos + |bytes| <= data.Length
    modifies data
    ensures data[..] == old(data[..pos]) + bytes + old(data[pos + |bytes|..])
  {
    var i := 0;
    while i < |bytes|
      invariant 0 <= i <= |bytes|
      invariant forall j :: 0 <= j < i ==> data[pos + j] == bytes[j]
      invariant forall j :: 0 <= j < pos || pos + i <= j < data.Length ==> data[j] == old(data[j])
    {
      data[pos + i] := bytes[i];
      i := i + 1;
    }
    ghost var was := old(data[..]);
    assert data[..pos] == was[..pos];
    assert data[pos..pos + |bytes|] == bytes;
    assert data[pos + |bytes|..] == was[pos + |bytes|..];
  }

  /** Writing the record and then the header in front of it writes header and record. */
  lemma BoxWritten(was: seq<Byte>, mid: seq<Byte>, now: seq<Byte>, cur: nat, header: seq<Byte>, record: seq<Byte>)
    requires |header| == 12 && cur + 12 + |record| <= |was|
    requires mid == was[..cur + 12] + record + was[cur + 12 + |record|..]
    requires now == mid[..cur] + header + mid[cur + 12..]
    ensures now == was[..cur] + (header + record) + was[cur + 12 + |record|..]
  {
  }

  lemma WrittenRecord(was: seq<Byte>, mid: seq<Byte>, at: nat, record: seq<Byte>)
    requires at + |record| <= |was|
    requires mid == was[..at] + record + was[at + |record|..]
    ensures mid[at..at + |record|] == record
  {
  }

  /** One turn of the saving loop: the save callback fills in the payload, then the header
      in front of it is completed from the bytes just written. */
  method SaveBox(data: array<Byte>, cur: nat, size: nat, key: int, record: seq<Byte>)
    requires |record| == size && cur + 12 + size <= data.Length
    modifies data
    ensures data[..] == old(data[..cur]) + BoxImage(Box(key, size, record)) + old(data[cur + 12 + size..])
  {
    ghost var was := data[..];
    assert was[..cur] == data[..cur] && was[cur + 12 + size..] == data[cur + 12 + size..];
    assert was[..cur + 12] == data[..cur + 12];
    WriteBytes(data, cur + 12, record);
    ghost var mid := data[..];
    WrittenRecord(was, mid, cur + 12, record);
    var written := data[cur + 12..cur + 12 + size];
    assert written == record && record[..size] == record;
    var checksum := InvChecksum(written, size);
    WriteHeader(data, cur, Header(size, checksum, key));
    BoxWritten(was, mid, data[..], cur, EncodeHeader(Header(size, checksum, key)), record);
  }

  method WriteHeader(data: array<Byte>, pos: nat, hd: Header)
    requires pos + 12 <= data.Length
    modifies data
    ensures data[..] == old(data[..])[..pos] + EncodeHeader(hd) + old(data[..])[pos + 12..]
  {
    ghost var was := data[..];
    assert was[..pos] == data[..pos] && was[pos + 12..] == data[pos + 12..];
    WriteBytes(data, pos, EncodeHeader(hd));
  }

  /** The outer header, written over the first 12 bytes once the body stands. */
  method FinishImage(data: array<Byte>, total: nat)
    requires 12 <= total <= data.Length
    modifies data
    ensures data[..] == EncodeHeader(Header(total, Hash(old(data[12..total])), DEFAULT_KEY)) + old(data[12..])
  {
    var body := data[12..total];
    var checksum := InvChecksum(body, total - 12);
    assert body[..total - 12] == body;
    WriteBytes(data, 0, EncodeHeader(Header(total, checksum, DEFAULT_KEY)));
  }

  lemma BodyRegion(s: seq<Byte>, front: seq<Byte>, body: seq<Byte>, tail: seq<Byte>)
    requires |front| == 12 && s == front + body + tail
    ensures s[12..12 + |body|] == body && s[12..] == body + tail
  {
  }

  /** Overwriting the next box's place extends the body written so far. */
  lemma NextBox(was: seq<Byte>, body: seq<Byte>, box: seq<Byte>)
    requires 12 + |body| + |box| <= |was|
    ensures var s, cur := was[..12] + body + was[12 + |body|..], 12 + |body|;
      s[..cur] + box + s[cur + |box|..] == was[..12] + (body + box) + was[cur + |box|..]
  {
  }

  /** The finished header in front of body and tail makes the image. */
  lemma Headed(boxes: seq<Box>, tail: seq<Byte>, s: seq<Byte>)
    requires s == EncodeHeader(Header(12 + BodySize(boxes), Hash(Body(boxes)), DEFAULT_KEY)) + (Body(boxes) + tail)
    ensures s == Image(boxes) + tail
  {
    Reassociate(EncodeHeader(Header(12 + BodySize(boxes), Hash(Body(boxes)), DEFAULT_KEY)), Body(boxes), tail);
  }

  /** How far the saving loop has come after `kk` boxes. */
  ghost predicate SavedPrefix(boxes: seq<Box>, data: seq<Byte>, was: seq<Byte>, kk: nat, cur: nat) {
    && kk <= |boxes|
    && cur == 12 + BodySize(boxes[..kk]) == 12 + |Body(boxes[..kk])| <= |was|
    && data == was[..12] + Body(boxes[..kk]) + was[cur..]
  }

  lemma SavedNext(boxes: seq<Box>, data: seq<Byte>, was: seq<Byte>, kk: nat, cur: nat)
    requires ValidBoxes(boxes) && 12 + BodySize(boxes) <= |was|
    requires kk < |boxes| && SavedPrefix(boxes, data, was, kk, cur)
    ensures var box := BoxImage(boxes[kk]);
      && cur + |box| <= |data|
      && SavedPrefix(boxes, data[..cur] + box + data[cur + |box|..], was, kk + 1, cur + |box|)
  {
    PrefixBody(boxes, kk);
    SizeMonotone(boxes, kk + 1);
    NextBox(was, Body(boxes[..kk]), BoxImage(boxes[kk]));
  }

  // ---------------------------------------------------------------- the store itself

  /** The static `ds`: header and callback arrays of fixed capacity. A feature's callbacks
      copy exactly `size` bytes between the image and the record they close over, here
      `payload`; `calls` is the history of load callbacks. */
  class Store {
    var num: nat
    var totalSize: nat
    const hd: array<Header>
    const payload: array<seq<Byte>>
    var calls: seq<Delivery>

    /** The registered boxes, in registration order. */
    ghost var Boxes: seq<Box>

    ghost predicate Valid()
      reads this, hd, payload
    {
      && hd.Length == payload.Length == NUM_STORAGE_BOXES
      && num == |Boxes| <= NUM_STORAGE_BOXES
      && (forall k :: 0 <= k < num ==> Boxes[k] == Box(hd[k].key, hd[k].size, payload[k]))
      && ValidBoxes(Boxes)
      && 12 <= totalSize == 12 + BodySize(Boxes)
    }

    /** `inv_init_storage_manager`. */
    constructor ()
      ensures Valid() && Boxes == [] && calls == [] && fresh(hd) && fresh(payload)
    {
      num, totalSize, calls, Boxes := 0, 12, [], [];
      hd := new Header[NUM_STORAGE_BOXES](_ => Header(0, 0, 0));
      payload := new seq<Byte>[NUM_STORAGE_BOXES](_ => []);
    }

    /** The search shared by registration and loading: `inv_find_entry`. */
    method FindEntry(key: int) returns (entry: int)
      requires Valid()
      ensures entry == Find(Boxes, key)
    {
      var kk := 0;
      while kk < num
        invariant 0 <= kk <= num
        invariant forall j :: 0 <= j < kk ==> Boxes[j].key != key
      {
        if key == hd[kk].key {
          FindFirst(Boxes, key, kk);
          return kk;
        }
        kk := kk + 1;
      }
      FindMisses(Boxes, key);
      return -1;
    }

    /** `inv_register_load_store`. */
    method Register(record: seq<Byte>, key: int) returns (r: Error)
      requires Valid() && 0 <= key < 0x1_0000_0000
      requires totalSize + 12 + |record| < 0x8000_0000
      modifies this, hd, payload
      ensures Valid() && calls == old(calls)
      ensures r == if Has(old(Boxes), key) || old(num) == NUM_STORAGE_BOXES then InvalidParameter else Success
      ensures Boxes == old(Boxes) + if r == Success then [Box(key, |record|, record)] else []
    {
      var entry := FindEntry(key);
      FindNone(Boxes, key);
      if entry >= 0 {
        return InvalidParameter;
      }
      if num >= NUM_STORAGE_BOXES {
        return InvalidParameter;
      }
      hd[num] := Header(|record|, 0, key);
      payload[num] := record;
      totalSize := totalSize + |record| + 12;
      num := num + 1;
      AppendBox(Boxes, Box(key, |record|, record));
      Boxes := Boxes + [Box(key, |record|, record)];
      r := Success;
    }

    /** `inv_save_mpl_states` into a caller's buffer of `sz` bytes. */
    method Save(data: array<Byte>, sz: nat) returns (r: Error)
      requires Valid() && sz <= data.Length
      modifies data
      ensures r == if sz >= totalSize then Success else CalibrationLoad
      ensures r == Success ==> data[..] == Image(Boxes) + old(data[totalSize..])
      ensures r != Success ==> data[..] == old(data[..])
    {
      if sz < totalSize {
        return CalibrationLoad;
      }
      BodyLength(Boxes);
      ghost var tail := data[totalSize..];
      SaveBoxes(data);
      FinishImage(data, totalSize);
      Headed(Boxes, tail, data[..]);
      r := Success;
    }

    /** The saving loop: everything but the outer header. */
    method SaveBoxes(data: array<Byte>)
      requires Valid() && totalSize <= data.Length
      modifies data
      ensures data[12..totalSize] == Body(Boxes)
      ensures data[12..] == Body(Boxes) + old(data[totalSize..])
    {
      ghost var was := data[..];
      assert Boxes[..0] == [];
      BodyLength(Boxes);
      var cur: nat := 12;
      for kk := 0 to num
        invariant SavedPrefix(Boxes, data[..], was, kk, cur)
      {
        cur := SaveTurn(data, kk, cur, was);
      }
      assert Boxes[..num] == Boxes;
      BodyRegion(data[..], was[..12], Body(Boxes), was[totalSize..]);
    }

    /** One turn of the saving loop. */
    method SaveTurn(data: array<Byte>, kk: nat, cur: nat, ghost was: seq<Byte>) returns (next: nat)
      requires Valid() && kk < num && totalSize <= |was|
      requires SavedPrefix(Boxes, data[..], was, kk, cur)
      modifies data
      ensures SavedPrefix(Boxes, data[..], was, kk + 1, next)
    {
      SavedNext(Boxes, data[..], was, kk, cur);
      SaveBox(data, cur, hd[kk].size, hd[kk].key, payload[kk]);
      next := cur + 12 + hd[kk].size;
    }

    /** `inv_load_mpl_states` on the memory from `data` on. */
    method Load(data: seq<Byte>, length: nat) returns (r: Error)
      requires Valid() && LoadSafe(data, length, Boxes)
      modifies this, payload
      ensures Valid()
      ensures var e := LoadImage(data, length, old(Boxes));
        && r == e.result
        && calls == old(calls) + e.calls
        && Boxes == ApplyAll(old(Boxes), e.calls)
    {
      if length < 12 {
        return CalibrationLoad;
      }
      var outer := HeaderAt(data, 0);
      if outer.key != DEFAULT_KEY {
        return CalibrationLoad;
      }
      var len := outer.size - 12;
      var body := InvChecksum(data[12..], len);
      assert data[12..][..if len < 0 then 0 else len] == Claimed(data, outer.size);
      if body != outer.checksum {
        return CalibrationLoad;
      }
      r := LoadAllBoxes(data, 12, len);
    }

    /** The box loop of `inv_load_mpl_states`. */
    method LoadAllBoxes(data: seq<Byte>, start: nat, length: int) returns (r: Error)
      requires Valid() && Walkable(data, start, length, Boxes)
      modifies this, payload
      ensures Valid()
      ensures var e := LoadBoxes(data, start, length, old(Boxes));
        && r == e.result
        && calls == old(calls) + e.calls
        && Boxes == ApplyAll(old(Boxes), e.calls)
    {
      r := LoadRest(data, start, length, Boxes, LoadBoxes(data, start, length, Boxes));
    }

    /** The loop itself, `whole` being the outcome to come. */
    method LoadRest(data: seq<Byte>, start: nat, length: int, ghost reg: seq<Box>, ghost whole: Outcome)
      returns (r: Error)
      requires Valid() && Alike(Boxes, reg) && LoadsAs(data, start, length, reg, whole)
      modifies this, payload
      ensures Valid()
      ensures r == whole.result && calls == old(calls) + whole.calls
      ensures Boxes == ApplyAll(old(Boxes), whole.calls)
    {
      ghost var rest := whole;
      var pos: nat, len: int := start, length;
      while len > 12
        invariant Valid() && Alike(Boxes, reg)
        invariant LoadsAs(data, pos, len, reg, rest)
        invariant ApplyAll(Boxes, rest.calls) == ApplyAll(old(Boxes), whole.calls)
        invariant Then(calls, rest) == Then(old(calls), whole)
        decreases len
      {
        r, rest := LoadOneBox(data, pos, len, reg, rest);
        if r != Success {
          return;
        }
        var size := HeaderAt(data, pos).size;
        pos, len := NextPos(pos, len, size), len - 12 - size;
      }
      NothingLeft(data, pos, len, reg, rest);
      r := Success;
    }

    /** What a turn does with the box: it moves what it delivers from the outcome to come, `e`,
        to the calls made. */
    method LoadOneBox(data: seq<Byte>, pos: nat, len: int, ghost reg: seq<Box>, ghost e: Outcome)
      returns (r: Error, ghost rest: Outcome)
      requires Valid() && Alike(Boxes, reg)
      requires len > 12 && LoadsAs(data, pos, len, reg, e)
      modifies this`calls, this`Boxes, payload
      ensures Valid() && Alike(Boxes, reg)
      ensures ApplyAll(Boxes, rest.calls) == ApplyAll(old(Boxes), e.calls)
      ensures Then(calls, rest) == Then(old(calls), e)
      ensures r != Success ==> rest == Outcome(r, [])
      ensures r == Success ==>
        var size := HeaderAt(data, pos).size;
        -12 < size && LoadsAs(data, NextPos(pos, len, size), len - 12 - size, reg, rest)
    {
      ghost var one;
      one, rest := LoadTurn(data, pos, len, reg, Boxes, e);
      ThenThen(calls, one.calls, rest);
      ApplyAllConcat(Boxes, one.calls, rest.calls);
      r := CheckBox(data, pos, len, one);
    }

    method CheckBox(data: seq<Byte>, pos: nat, len: int, ghost one: Outcome) returns (r: Error)
      requires Valid() && Readable(data, pos, len, Boxes)
      requires one == LoadBox(data, pos, len, Boxes)
      modifies this`calls, this`Boxes, payload
      ensures Valid()
      ensures r == one.result && calls == old(calls) + one.calls
      ensures Boxes == ApplyAll(old(Boxes), one.calls)
    {
      var inner := HeaderAt(data, pos);
      var entry := FindEntry(inner.key);
      if entry >= 0 && len - 12 >= inner.size {
        if inner.size != hd[entry].size {
          return CalibrationLen;
        }
        var bytes := data[pos + 12..pos + 12 + inner.size];
        var checksum := InvChecksum(bytes, inner.size);
        assert bytes[..inner.size] == bytes;
        if checksum != inner.checksum {
          return CalibrationLoad;
        }
        LoadCallback(entry, bytes);
      }
      r := Success;
    }

    /** `ds.load[entry](data)`. */
    method LoadCallback(entry: nat, bytes: seq<Byte>)
      requires Valid() && entry < num && |bytes| == hd[entry].size
      modifies this`calls, this`Boxes, payload
      ensures Valid()
      ensures calls == old(calls) + [Delivery(hd[entry].key, bytes)]
      ensures Boxes == Apply(old(Boxes), Delivery(hd[entry].key, bytes))
    {
      StoreRecord(Boxes, entry, bytes);
      payload[entry] := bytes;
      calls := calls + [Delivery(hd[entry].key, bytes)];
      Boxes := Boxes[entry := Boxes[entry].(payload := bytes)];
    }
  }
}
