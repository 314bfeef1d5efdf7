/** Loading an image saved under one registry into another. */
module StorageRoundTrip {
  import opened Checksum
  import opened Int32
  import opened StorageFormat

  /** The boxes the loop sees: it stops once no more than one header's worth of bytes is
      left, so a last box of size zero is never looked at. */
  function Visible(boxes: seq<Box>): seq<Box> {
    if boxes != [] && boxes[|boxes| - 1].size == 0 then boxes[..|boxes| - 1] else boxes
  }

  /** The boxes of `saved` that `reg` also knows, as deliveries, in order. */
  function Shared(saved: seq<Box>, reg: seq<Box>): seq<Delivery> {
    if saved == [] then []
    else
      (if Has(reg, saved[0].key) then [Delivery(saved[0].key, saved[0].payload)] else [])
      + Shared(saved[1..], reg)
  }

  /** The box's size differs from the size its key is registered with. */
  predicate Resized(b: Box, reg: seq<Box>) {
    exists k :: 0 <= k < |reg| && reg[k].key == b.key && reg[k].size != b.size
  }

  /** The boxes ahead of the first one whose size changed between the two registries. */
  function Agreeing(saved: seq<Box>, reg: seq<Box>): (r: seq<Box>)
    ensures r <= saved
    ensures r == saved <==> forall k :: 0 <= k < |saved| ==> !Resized(saved[k], reg)
    ensures forall k :: 0 <= k < |r| ==> !Resized(r[k], reg)
  {
    if saved == [] || Resized(saved[0], reg) then []
    else [saved[0]] + Agreeing(saved[1..], reg)
  }

  /** What loading a saved image must do. */
  function Expected(saved: seq<Box>, reg: seq<Box>): Outcome {
    var ok := Agreeing(saved, reg);
    Outcome(if ok == saved then Success else CalibrationLen, Shared(ok, reg))
  }

  lemma FindSize(reg: seq<Box>, b: Box)
    requires DistinctKeys(reg)
    ensures Has(reg, b.key) <==> Find(reg, b.key) >= 0
    ensures Resized(b, reg) <==> Find(reg, b.key) >= 0 && reg[Find(reg, b.key)].size != b.size
  {
    forall k | 0 <= k < |reg| && reg[k].key == b.key
      ensures Find(reg, b.key) == k
    {
      FindUnique(reg, k);
    }
  }

  lemma LoadFirstBox(mem: seq<Byte>, pos: nat, b: Box, rest: seq<Byte>, reg: seq<Box>, e: Outcome)
    requires ValidBox(b) && DistinctKeys(reg)
    requires |BoxImage(b) + rest| > 12 && HoldsAt(mem, pos, BoxImage(b) + rest)
    requires LoadsAs(mem, pos + 12 + b.size, |rest|, reg, e)
    ensures LoadsAs(mem, pos, |BoxImage(b) + rest|, reg, Prepend(b, reg, e))
  {
    BoxInPlace(mem, pos, b, rest);
    FindSize(reg, b);
  }

  /** What one box adds in front of the outcome of the boxes after it. */
  function Prepend(b: Box, reg: seq<Box>, e: Outcome): Outcome {
    if Resized(b, reg) then Outcome(CalibrationLen, [])
    else if Has(reg, b.key) then Outcome(e.result, [Delivery(b.key, b.payload)] + e.calls)
    else e
  }

  lemma ExpectedStep(saved: seq<Box>, reg: seq<Box>)
    requires forall i :: 0 <= i < |saved| ==> ValidBox(saved[i])
    requires |Body(saved)| > 12
    ensures saved != []
    ensures Expected(Visible(saved), reg) == Prepend(saved[0], reg, Expected(Visible(saved[1..]), reg))
  {
    if |saved| == 1 {
      assert saved[1..] == [];
    }
    VisibleFront(saved);
    ExpectedFront(Visible(saved), reg);
  }

  lemma LoadStep(mem: seq<Byte>, pos: nat, saved: seq<Box>, reg: seq<Box>, e: Outcome)
    requires saved != [] && ValidBox(saved[0]) && DistinctKeys(reg) && |Body(saved)| > 12
    requires HoldsAt(mem, pos, Body(saved))
    requires LoadsAs(mem, pos + 12 + saved[0].size, |Body(saved[1..])|, reg, e)
    ensures LoadsAs(mem, pos, |Body(saved)|, reg, Prepend(saved[0], reg, e))
  {
    LoadFirstBox(mem, pos, saved[0], Body(saved[1..]), reg, e);
  }

  lemma TailInPlace(mem: seq<Byte>, pos: nat, saved: seq<Box>)
    requires saved != [] && ValidBox(saved[0])
    requires HoldsAt(mem, pos, Body(saved))
    ensures HoldsAt(mem, pos + 12 + saved[0].size, Body(saved[1..]))
  {
    BoxInPlace(mem, pos, saved[0], Body(saved[1..]));
  }

  lemma LoadSmallBody(mem: seq<Byte>, pos: nat, saved: seq<Box>, reg: seq<Box>)
    requires forall i :: 0 <= i < |saved| ==> ValidBox(saved[i])
    requires |Body(saved)| <= 12
    ensures LoadsAs(mem, pos, |Body(saved)|, reg, Expected(Visible(saved), reg))
  {
    SmallBody(saved);
  }

  lemma LoadLargeBody(mem: seq<Byte>, pos: nat, saved: seq<Box>, reg: seq<Box>, e: Outcome)
    requires forall i :: 0 <= i < |saved| ==> ValidBox(saved[i])
    requires DistinctKeys(reg) && |Body(saved)| > 12 && saved != [] && ValidBox(saved[0])
    requires HoldsAt(mem, pos, Body(saved))
    requires e == Expected(Visible(saved[1..]), reg)
    requires LoadsAs(mem, pos + 12 + saved[0].size, |Body(saved[1..])|, reg, e)
    ensures LoadsAs(mem, pos, |Body(saved)|, reg, Expected(Visible(saved), reg))
  {
    ExpectedStep(saved, reg);
    LoadStep(mem, pos, saved, reg, e);
  }

  /** What follows the first box of a body is there too. */
  lemma TailBody(mem: seq<Byte>, pos: nat, saved: seq<Box>)
    requires forall i :: 0 <= i < |saved| ==> ValidBox(saved[i])
    requires HoldsAt(mem, pos, Body(saved)) && |Body(saved)| > 12
    ensures saved != [] && ValidBox(saved[0])
    ensures forall i :: 0 <= i < |saved[1..]| ==> ValidBox(saved[1..][i])
    ensures HoldsAt(mem, pos + 12 + saved[0].size, Body(saved[1..]))
  {
    TailInPlace(mem, pos, saved);
  }

  lemma {:induction false} LoadBoxesOfBody(mem: seq<Byte>, pos: nat, saved: seq<Box>, reg: seq<Box>)
    requires forall i :: 0 <= i < |saved| ==> ValidBox(saved[i])
    requires DistinctKeys(reg)
    requires HoldsAt(mem, pos, Body(saved))
    ensures LoadsAs(mem, pos, |Body(saved)|, reg, Expected(Visible(saved), reg))
    decreases |saved|
  {
    if |Body(saved)| <= 12 {
      LoadSmallBody(mem, pos, saved, reg);
    } else {
      TailBody(mem, pos, saved);
      var tail := saved[1..];
      LoadBoxesOfBody(mem, pos + 12 + saved[0].size, tail, reg);
      LoadLargeBody(mem, pos, saved, reg, Expected(Visible(tail), reg));
    }
  }

  lemma SmallBody(saved: seq<Box>)
    requires forall i :: 0 <= i < |saved| ==> ValidBox(saved[i])
    requires |Body(saved)| <= 12
    ensures Visible(saved) == []
  {
    BodyLength(saved);
    if |saved| == 1 {
      assert saved[1..] == [];
    }
  }

  lemma VisibleFront(saved: seq<Box>)
    requires saved != [] && (|saved| > 1 || saved[0].size > 0)
    ensures Visible(saved) == [saved[0]] + Visible(saved[1..])
  {
    if |saved| == 1 {
      assert saved[1..] == [];
    } else {
      assert saved[1..][|saved| - 2] == saved[|saved| - 1];
      assert saved[1..][..|saved| - 2] == saved[..|saved| - 1][1..];
    }
  }

  lemma ExpectedFront(saved: seq<Box>, reg: seq<Box>)
    requires saved != []
    ensures Expected(saved, reg) == Prepend(saved[0], reg, Expected(saved[1..], reg))
  {
    if !Resized(saved[0], reg) {
      var ok := Agreeing(saved[1..], reg);
      assert ([saved[0]] + ok)[1..] == ok;
      assert saved == [saved[0]] + saved[1..];
    }
  }

  /** Main result: whatever two registries saved and load, loading the saved image checks
      out and delivers, in saving order, exactly the boxes known to both, up to the first
      whose size changed -- except that a last box of size zero is not seen at all. */
  lemma LoadOfSave(saved: seq<Box>, reg: seq<Box>, slack: seq<Byte>, length: nat)
    requires ValidBoxes(saved) && DistinctKeys(reg)
    requires 12 <= length <= |Image(saved)| + |slack|
    ensures |Image(saved)| == 12 + BodySize(saved)
    ensures LoadSafe(Image(saved) + slack, length, reg)
    ensures LoadImage(Image(saved) + slack, length, reg) == Expected(Visible(saved), reg)
  {
    SavedLayout(saved, slack);
    LoadBoxesOfBody(Image(saved) + slack, 12, saved, reg);
  }

  /** The load of a saved image succeeds exactly when no visible shared box changed size;
      otherwise it reports the length error. */
  lemma LoadSucceedsIff(saved: seq<Box>, reg: seq<Box>, slack: seq<Byte>, length: nat)
    requires ValidBoxes(saved) && DistinctKeys(reg)
    requires 12 <= length <= |Image(saved)| + |slack|
    ensures LoadSafe(Image(saved) + slack, length, reg)
    ensures var e := LoadImage(Image(saved) + slack, length, reg);
      && (e.result == Success <==> forall k :: 0 <= k < |Visible(saved)| ==> !Resized(Visible(saved)[k], reg))
      && e.result in {Success, CalibrationLen}
  {
    LoadOfSave(saved, reg, slack, length);
  }

  lemma {:induction false} SharedAppend(s: seq<Box>, b: Box, reg: seq<Box>)
    ensures Shared(s + [b], reg)
      == Shared(s, reg) + if Has(reg, b.key) then [Delivery(b.key, b.payload)] else []
  {
    if s == [] {
      assert [b][1..] == [];
      assert s + [b] == [b];
    } else {
      assert (s + [b])[1..] == s[1..] + [b];
      SharedAppend(s[1..], b, reg);
    }
  }

  lemma SharedOfVisible(saved: seq<Box>, front: seq<Box>, last: Box, reg: seq<Box>)
    requires saved == front + [last]
    ensures Shared(Visible(saved), reg) == Shared(saved, reg) <==> !(last.size == 0 && Has(reg, last.key))
  {
    SharedAppend(front, last, reg);
    assert Visible(saved) == if last.size == 0 then front else saved;
  }

  lemma AllSharedExpectedIff(saved: seq<Box>, reg: seq<Box>)
    requires forall k :: 0 <= k < |saved| ==> !Resized(saved[k], reg)
    ensures Expected(Visible(saved), reg).result == Success
    ensures Expected(Visible(saved), reg).calls == Shared(saved, reg)
      <==> !(saved != [] && saved[|saved| - 1].size == 0 && Has(reg, saved[|saved| - 1].key))
  {
    assert Agreeing(Visible(saved), reg) == Visible(saved);
    if saved != [] {
      SharedOfVisible(saved, saved[..|saved| - 1], saved[|saved| - 1], reg);
    }
  }

  /** When sizes agree, the load of a saved image succeeds, and it delivers every shared box if
      and only if the last saved box is not an empty one that the loading side knows. */
  lemma AllSharedDeliveredIff(saved: seq<Box>, reg: seq<Box>, slack: seq<Byte>, length: nat)
    requires ValidBoxes(saved) && DistinctKeys(reg)
    requires 12 <= length <= |Image(saved)| + |slack|
    requires forall k :: 0 <= k < |saved| ==> !Resized(saved[k], reg)
    ensures LoadSafe(Image(saved) + slack, length, reg)
    ensures var e := LoadImage(Image(saved) + slack, length, reg);
      && e.result == Success
      && (e.calls == Shared(saved, reg)
          <==> !(saved != [] && saved[|saved| - 1].size == 0 && Has(reg, saved[|saved| - 1].key)))
  {
    LoadOfSave(saved, reg, slack, length);
    AllSharedExpectedIff(saved, reg);
  }

  /** For instance: one empty box, saved and loaded where it is known, is not delivered. */
  lemma EmptyBoxMissedExample()
    ensures var saved := [Box(1, 0, [])];
      && |Image(saved)| == 24
      && LoadSafe(Image(saved), 24, saved)
      && LoadImage(Image(saved), 24, saved) == Outcome(Success, [])
      && Shared(saved, saved) == [Delivery(1, [])]
  {
    var saved := [Box(1, 0, [])];
    assert saved[0].key == 1 && saved[1..] == [];
    assert BodySize(saved) == 12 + BodySize([]);
    assert ValidBoxes(saved);
    SavedLayout(saved, []);
    LoadOfSave(saved, saved, [], 24);
    assert Image(saved) + [] == Image(saved);
    assert Visible(saved) == [];
    assert Shared(saved, saved) == [Delivery(1, [])] + Shared([], saved);
  }

  lemma {:induction false} SharedCong(saved: seq<Box>, reg: seq<Box>, reg': seq<Box>)
    requires forall key :: Has(reg, key) <==> Has(reg', key)
    ensures Shared(saved, reg) == Shared(saved, reg')
  {
    if saved != [] {
      SharedCong(saved[1..], reg, reg');
    }
  }

  lemma HasFront(saved: seq<Box>, key: int)
    requires saved != []
    ensures Has(saved, key) <==> saved[0].key == key || Has(saved[1..], key)
  {
    if Has(saved[1..], key) {
      var i :| 0 <= i < |saved| - 1 && saved[1..][i].key == key;
      assert saved[i + 1].key == key;
    }
    if Has(saved, key) && saved[0].key != key {
      var i :| 0 <= i < |saved| && saved[i].key == key;
      assert saved[1..][i - 1].key == key;
    }
  }

  /** The record of `key` after a load: the saved bytes, or the old record for a key the
      image does not have. */
  function RecordAfter(saved: seq<Box>, b: Box): seq<Byte> {
    if saved == [] then b.payload
    else if saved[0].key == b.key then saved[0].payload
    else RecordAfter(saved[1..], b)
  }

  lemma {:induction false} RecordAfterMeaning(saved: seq<Box>, b: Box)
    requires DistinctKeys(saved)
    ensures forall i :: 0 <= i < |saved| && saved[i].key == b.key ==> RecordAfter(saved, b) == saved[i].payload
    ensures !Has(saved, b.key) ==> RecordAfter(saved, b) == b.payload
  {
    if saved != [] {
      DistinctTail(saved);
      RecordAfterMeaning(saved[1..], b);
      HasFront(saved, b.key);
      assert forall i :: 0 < i < |saved| ==> saved[i] == saved[1..][i - 1];
    }
  }

  lemma ApplyOne(reg: seq<Box>, call: Delivery, k: nat)
    requires DistinctKeys(reg) && k < |reg|
    ensures Apply(reg, call)[k]
      == if reg[k].key == call.key then reg[k].(payload := call.data) else reg[k]
  {
    if reg[k].key == call.key {
      FindUnique(reg, k);
    }
  }

  lemma {:induction false} ApplyShared(saved: seq<Box>, reg: seq<Box>, k: nat)
    requires DistinctKeys(saved) && DistinctKeys(reg) && k < |reg|
    ensures ApplyAll(reg, Shared(saved, reg))[k] == reg[k].(payload := RecordAfter(saved, reg[k]))
    decreases |saved|
  {
    if saved != [] {
      var b, tail := saved[0], saved[1..];
      DistinctTail(saved);
      if Has(reg, b.key) {
        var call := Delivery(b.key, b.payload);
        var reg' := Apply(reg, call);
        assert Shared(saved, reg) == [call] + Shared(tail, reg);
        assert Shared(saved, reg)[1..] == Shared(tail, reg);
        DistinctSame(reg, reg');
        SameKeys(reg, reg');
        SharedCong(tail, reg, reg');
        ApplyShared(tail, reg', k);
        ApplyOne(reg, call, k);
        RecordAfterMeaning(tail, reg'[k]);
      } else {
        assert reg[k].key != b.key;
        ApplyShared(tail, reg, k);
        assert Shared(saved, reg) == Shared(tail, reg);
      }
    }
  }

  lemma SameKeys(reg: seq<Box>, reg': seq<Box>)
    requires |reg| == |reg'| && forall k :: 0 <= k < |reg| ==> reg[k].key == reg'[k].key
    ensures forall key :: Has(reg, key) <==> Has(reg', key)
  {
  }

  lemma VisibleDistinct(saved: seq<Box>)
    requires DistinctKeys(saved)
    ensures DistinctKeys(Visible(saved))
  {
    forall i: nat, j: nat | i < j < |Visible(saved)|
      ensures Distinct(Visible(saved), i, j)
    {
      assert Distinct(saved, i, j);
    }
  }

  /** The box the loop does not see has nothing to deliver. */
  lemma {:induction false} VisibleRecord(saved: seq<Box>, b: Box)
    requires |b.payload| == b.size
    requires forall i :: 0 <= i < |saved| ==> ValidBox(saved[i])
    requires forall i :: 0 <= i < |saved| && saved[i].key == b.key ==> saved[i].size == b.size
    ensures RecordAfter(Visible(saved), b) == RecordAfter(saved, b)
  {
    if saved != [] {
      if |saved| == 1 {
        assert saved[1..] == [];
      } else {
        VisibleFront(saved);
        VisibleRecord(saved[1..], b);
      }
    }
  }

  /** Main result: whatever the two registries, as long as every shared key has one size
      the load succeeds, and afterwards every record holds the saved bytes of its key, or
      is untouched when the image lacks the key. */
  lemma CrossVersionLoad(saved: seq<Box>, reg: seq<Box>, slack: seq<Byte>, length: nat, k: nat)
    requires ValidBoxes(saved) && ValidBoxes(reg) && k < |reg|
    requires forall i :: 0 <= i < |saved| ==> !Resized(saved[i], reg)
    requires 12 <= length <= |Image(saved)| + |slack|
    ensures LoadSafe(Image(saved) + slack, length, reg)
    ensures var e := LoadImage(Image(saved) + slack, length, reg);
      && e.result == Success
      && Recorded(saved, reg[k], ApplyAll(reg, e.calls)[k])
  {
    LoadOfSave(saved, reg, slack, length);
    assert Agreeing(Visible(saved), reg) == Visible(saved);
    VisibleDistinct(saved);
    ApplyShared(Visible(saved), reg, k);
    VisibleRecord(saved, reg[k]);
    RecordAfterMeaning(saved, reg[k]);
  }

  /** `after` is the box `b` once the image of `saved` is loaded. */
  ghost predicate Recorded(saved: seq<Box>, b: Box, after: Box) {
    && (forall i :: 0 <= i < |saved| && saved[i].key == b.key ==> after == b.(payload := saved[i].payload))
    && (!Has(saved, b.key) ==> after == b)
  }

  lemma AlikeSizes(saved: seq<Box>, now: seq<Box>, i: nat)
    requires DistinctKeys(saved) && Alike(now, saved) && i < |saved|
    ensures !Resized(saved[i], now)
  {
    forall k: nat | k < |now| && now[k].key == saved[i].key
      ensures k == i
    {
      FindUnique(saved, i);
      FindUnique(saved, k);
    }
  }

  /** The full round trip: saving, changing the records at will and loading restores them. */
  lemma SaveLoadRestores(saved: seq<Box>, now: seq<Box>, slack: seq<Byte>, length: nat)
    requires ValidBoxes(saved) && ValidBoxes(now) && Alike(now, saved)
    requires 12 <= length <= |Image(saved)| + |slack|
    ensures LoadSafe(Image(saved) + slack, length, now)
    ensures var e := LoadImage(Image(saved) + slack, length, now);
      e.result == Success && ApplyAll(now, e.calls) == saved
  {
    forall i: nat | i < |saved|
      ensures !Resized(saved[i], now)
    {
      AlikeSizes(saved, now, i);
    }
    LoadOfSave(saved, now, slack, length);
    assert Agreeing(Visible(saved), now) == Visible(saved);
    var after := ApplyAll(now, LoadImage(Image(saved) + slack, length, now).calls);
    forall k: nat | k < |now|
      ensures after[k] == saved[k]
    {
      CrossVersionLoad(saved, now, slack, length, k);
    }
  }
}
