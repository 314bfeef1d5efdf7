/** What loading an arbitrary image may do: whatever the bytes, a load callback only gets data of
    its registered size whose checksum is right. */
module StorageSafety {
  import opened Checksum
  import opened Int32
  import opened StorageFormat
  import opened StorageRoundTrip

  // ---------------------------------------------------------------- every image

  /** The delivery is a box that lies whole at p, below `end`, and under a registered key with
      its registered size; its checksum is right. */
  ghost predicate IntactAt(mem: seq<Byte>, p: nat, end: int, reg: seq<Box>, d: Delivery) {
    && p + 12 + |d.data| <= end <= |mem|
    && HeaderAt(mem, p) == Header(|d.data|, Hash(d.data), d.key)
    && mem[p + 12..p + 12 + |d.data|] == d.data
    && Find(reg, d.key) >= 0 && reg[Find(reg, d.key)].size == |d.data|
  }

  ghost predicate IntactFrom(mem: seq<Byte>, pos: nat, end: int, reg: seq<Box>, d: Delivery) {
    exists p: nat :: pos <= p && IntactAt(mem, p, end, reg, d)
  }

  ghost predicate AllIntact(mem: seq<Byte>, pos: nat, end: int, reg: seq<Box>, calls: seq<Delivery>) {
    forall d :: d in calls ==> IntactFrom(mem, pos, end, reg, d)
  }

  lemma TurnDelivers(mem: seq<Byte>, pos: nat, len: int, reg: seq<Box>)
    requires Readable(mem, pos, len, reg)
    ensures AllIntact(mem, pos, pos + len, reg, LoadBox(mem, pos, len, reg).calls)
  {
    var calls := LoadBox(mem, pos, len, reg).calls;
    forall d | d in calls
      ensures IntactFrom(mem, pos, pos + len, reg, d)
    {
      assert IntactAt(mem, pos, pos + len, reg, d);
    }
  }

  /** Boxes further on, behind those of one turn. */
  lemma IntactLater(mem: seq<Byte>, pos: nat, later: nat, end: int, reg: seq<Box>,
                    one: seq<Delivery>, calls: seq<Delivery>)
    requires pos <= later && AllIntact(mem, later, end, reg, calls) && AllIntact(mem, pos, end, reg, one)
    ensures AllIntact(mem, pos, end, reg, one + calls)
  {
    forall d | d in calls
      ensures IntactFrom(mem, pos, end, reg, d)
    {
      var p: nat :| later <= p && IntactAt(mem, p, end, reg, d);
    }
  }

  /** What one turn hands on to the next. */
  lemma TurnThenRest(mem: seq<Byte>, pos: nat, len: int, reg: seq<Box>, size: int)
    requires Walkable(mem, pos, len, reg) && len > 12 && !LastTurn(mem, pos, len, reg)
    requires size == HeaderAt(mem, pos).size
    ensures -12 < size && Walkable(mem, pos + 12 + size, len - 12 - size, reg)
    ensures LoadBoxes(mem, pos, len, reg).calls
      == LoadBox(mem, pos, len, reg).calls + LoadBoxes(mem, pos + 12 + size, len - 12 - size, reg).calls
  {
  }

  /** The delivered boxes of a walk that ends in its first turn. */
  lemma LastDelivers(mem: seq<Byte>, pos: nat, len: int, reg: seq<Box>, end: int)
    requires Walkable(mem, pos, len, reg) && end == pos + len
    requires len <= 12 || LastTurn(mem, pos, len, reg)
    ensures AllIntact(mem, pos, end, reg, LoadBoxes(mem, pos, len, reg).calls)
  {
    if len > 12 {
      TurnDelivers(mem, pos, len, reg);
    }
  }

  lemma {:induction false} BoxesDeliver(mem: seq<Byte>, pos: nat, len: int, reg: seq<Box>, end: int)
    requires Walkable(mem, pos, len, reg) && end == pos + len
    ensures AllIntact(mem, pos, end, reg, LoadBoxes(mem, pos, len, reg).calls)
    decreases len
  {
    if len <= 12 || LastTurn(mem, pos, len, reg) {
      LastDelivers(mem, pos, len, reg, end);
    } else {
      var size := HeaderAt(mem, pos).size;
      TurnThenRest(mem, pos, len, reg, size);
      BoxesDeliver(mem, pos + 12 + size, len - 12 - size, reg, end);
      TurnAndRestDeliver(mem, pos, len, reg, end, size);
    }
  }

  lemma TurnAndRestDeliver(mem: seq<Byte>, pos: nat, len: int, reg: seq<Box>, end: int, size: int)
    requires Walkable(mem, pos, len, reg) && len > 12 && !LastTurn(mem, pos, len, reg)
    requires end == pos + len && size == HeaderAt(mem, pos).size
    requires -12 < size && Walkable(mem, pos + 12 + size, len - 12 - size, reg)
    requires AllIntact(mem, pos + 12 + size, end, reg, LoadBoxes(mem, pos + 12 + size, len - 12 - size, reg).calls)
    ensures AllIntact(mem, pos, end, reg, LoadBoxes(mem, pos, len, reg).calls)
  {
    TurnThenRest(mem, pos, len, reg, size);
    TurnDelivers(mem, pos, len, reg);
    IntactLater(mem, pos, pos + 12 + size, end, reg, LoadBox(mem, pos, len, reg).calls,
      LoadBoxes(mem, pos + 12 + size, len - 12 - size, reg).calls);
  }

  /** The outer checks: enough bytes for a header, the key, the hash of the claimed body. */
  ghost predicate OuterPasses(mem: seq<Byte>, length: nat, reg: seq<Box>)
    requires LoadSafe(mem, length, reg)
  {
    && length >= 12
    && HeaderAt(mem, 0).key == 29681
    && Hash(Claimed(mem, HeaderAt(mem, 0).size)) == HeaderAt(mem, 0).checksum
  }

  /** Main result: for every image, damaged or not, an outer check that fails is the load error
      and no load callback; and every load callback gets data that lies whole in the claimed
      body, with a right checksum, under a registered key and of the registered size. */
  lemma EveryDeliveryIntact(mem: seq<Byte>, length: nat, reg: seq<Box>)
    requires LoadSafe(mem, length, reg)
    ensures !OuterPasses(mem, length, reg) ==> LoadImage(mem, length, reg) == Outcome(CalibrationLoad, [])
    ensures OuterPasses(mem, length, reg) ==>
      AllIntact(mem, 12, HeaderAt(mem, 0).size, reg, LoadImage(mem, length, reg).calls)
  {
    if OuterPasses(mem, length, reg) {
      BoxesDeliver(mem, 12, HeaderAt(mem, 0).size - 12, reg, HeaderAt(mem, 0).size);
    }
  }

  // ---------------------------------------------------------------- good boxes before a bad one

  ghost predicate Good(boxes: seq<Box>, reg: seq<Box>) {
    forall i :: 0 <= i < |boxes| ==> ValidBox(boxes[i]) && !Resized(boxes[i], reg)
  }

  /** The shared ones of some boxes are delivered first. */
  function Then(good: seq<Box>, reg: seq<Box>, e: Outcome): Outcome {
    Outcome(e.result, Shared(good, reg) + e.calls)
  }

  lemma ThenStep(good: seq<Box>, reg: seq<Box>, e: Outcome)
    requires good != [] && !Resized(good[0], reg)
    ensures Then(good, reg, e) == Prepend(good[0], reg, Then(good[1..], reg, e))
  {
    var b := good[0];
    var one := if Has(reg, b.key) then [Delivery(b.key, b.payload)] else [];
    assert one + (Shared(good[1..], reg) + e.calls) == (one + Shared(good[1..], reg)) + e.calls;
    assert [] + (Shared(good[1..], reg) + e.calls) == Shared(good[1..], reg) + e.calls;
  }

  lemma BodyFirst(good: seq<Box>, rest: seq<Byte>)
    requires good != []
    ensures Body(good) + rest == BoxImage(good[0]) + (Body(good[1..]) + rest)
    ensures |Body(good)| == |BoxImage(good[0])| + |Body(good[1..])|
  {
    Reassociate(BoxImage(good[0]), Body(good[1..]), rest);
  }

  lemma GoodLayout(mem: seq<Byte>, pos: nat, good: seq<Box>, rest: seq<Byte>)
    requires good != [] && ValidBox(good[0]) && HoldsAt(mem, pos, Body(good) + rest)
    ensures Body(good) + rest == BoxImage(good[0]) + (Body(good[1..]) + rest)
    ensures HoldsAt(mem, pos + 12 + good[0].size, Body(good[1..]) + rest)
    ensures |Body(good)| == 12 + good[0].size + |Body(good[1..])|
  {
    BodyFirst(good, rest);
    PartHeld(mem, pos, BoxImage(good[0]), Body(good[1..]) + rest);
  }

  /** The first of the good boxes. */
  lemma GoodFirst(mem: seq<Byte>, pos: nat, good: seq<Box>, rest: seq<Byte>, reg: seq<Box>, e: Outcome)
    requires good != [] && ValidBox(good[0]) && DistinctKeys(reg) && rest != []
    requires HoldsAt(mem, pos, Body(good) + rest)
    requires LoadsAs(mem, pos + 12 + good[0].size, |Body(good[1..]) + rest|, reg, e)
    ensures LoadsAs(mem, pos, |Body(good) + rest|, reg, Prepend(good[0], reg, e))
  {
    GoodLayout(mem, pos, good, rest);
    LoadFirstBox(mem, pos, good[0], Body(good[1..]) + rest, reg, e);
  }

  /** What lies behind the first of the good boxes. */
  lemma GoodNext(mem: seq<Byte>, pos: nat, good: seq<Box>, rest: seq<Byte>, at: nat, reg: seq<Box>)
    requires good != [] && Good(good, reg)
    requires HoldsAt(mem, pos, Body(good) + rest) && at == pos + |Body(good)|
    ensures good[0].size >= 0 && Good(good[1..], reg)
    ensures HoldsAt(mem, pos + 12 + good[0].size, Body(good[1..]) + rest)
    ensures at == pos + 12 + good[0].size + |Body(good[1..])|
  {
    GoodTail(good, reg);
    GoodLayout(mem, pos, good, rest);
  }

  lemma GoodStep(mem: seq<Byte>, pos: nat, good: seq<Box>, rest: seq<Byte>, reg: seq<Box>, e: Outcome)
    requires good != [] && Good(good, reg) && DistinctKeys(reg) && rest != [] && good[0].size >= 0
    requires HoldsAt(mem, pos, Body(good) + rest)
    requires LoadsAs(mem, pos + 12 + good[0].size, |Body(good[1..]) + rest|, reg, Then(good[1..], reg, e))
    ensures LoadsAs(mem, pos, |Body(good) + rest|, reg, Then(good, reg, e))
  {
    GoodTail(good, reg);
    ThenStep(good, reg, e);
    GoodFirst(mem, pos, good, rest, reg, Then(good[1..], reg, e));
  }

  /** Good boxes are delivered as far as they are shared; what follows them, at `at`, decides the
      result. */
  lemma {:induction false} GoodThen(mem: seq<Byte>, pos: nat, good: seq<Box>, rest: seq<Byte>, at: nat,
                                    reg: seq<Box>, e: Outcome)
    requires Good(good, reg) && DistinctKeys(reg) && rest != []
    requires HoldsAt(mem, pos, Body(good) + rest) && at == pos + |Body(good)|
    requires LoadsAs(mem, at, |rest|, reg, e)
    ensures LoadsAs(mem, pos, |Body(good) + rest|, reg, Then(good, reg, e))
    decreases |good|
  {
    if good == [] {
      GoodNone(mem, pos, good, rest, reg, e);
    } else {
      GoodNext(mem, pos, good, rest, at, reg);
      GoodThen(mem, pos + 12 + good[0].size, good[1..], rest, at, reg, e);
      GoodStep(mem, pos, good, rest, reg, e);
    }
  }

  lemma GoodNone(mem: seq<Byte>, pos: nat, good: seq<Box>, rest: seq<Byte>, reg: seq<Box>, e: Outcome)
    requires good == [] && LoadsAs(mem, pos, |rest|, reg, e)
    ensures LoadsAs(mem, pos, |Body(good) + rest|, reg, Then(good, reg, e))
  {
    assert Shared(good, reg) + e.calls == e.calls;
  }

  lemma GoodTail(good: seq<Box>, reg: seq<Box>)
    requires good != [] && Good(good, reg)
    ensures ValidBox(good[0]) && !Resized(good[0], reg) && Good(good[1..], reg)
  {
  }

  /** A printed box whose checksum field holds something else. */
  function Marked(b: Box, checksum: int): seq<Byte> {
    EncodeHeader(Header(b.size, checksum, b.key)) + b.payload
  }

  /** A box that says it has more bytes than are left. */
  function Oversized(size: int, checksum: int, key: int, bytes: seq<Byte>): seq<Byte> {
    EncodeHeader(Header(size, checksum, key)) + bytes
  }

  /** The turn that meets such a box. */
  lemma MarkedTurn(mem: seq<Byte>, pos: nat, len: int, b: Box, checksum: int, reg: seq<Box>)
    requires ValidBox(b) && DistinctKeys(reg) && Has(reg, b.key) && !Resized(b, reg)
    requires checksum != Hash(b.payload) && 12 < len && 12 + b.size <= len && pos + len <= |mem|
    requires HeaderAt(mem, pos) == Header(b.size, checksum, b.key)
    requires mem[pos + 12..pos + 12 + b.size] == b.payload
    ensures LoadsAs(mem, pos, len, reg, Outcome(CalibrationLoad, []))
  {
    FindSize(reg, b);
  }

  lemma MarkedBox(mem: seq<Byte>, pos: nat, b: Box, checksum: int, more: seq<Byte>, reg: seq<Box>)
    requires ValidBox(b) && DistinctKeys(reg) && Has(reg, b.key) && !Resized(b, reg)
    requires 0 <= checksum < 0x1_0000_0000 && checksum != Hash(b.payload)
    requires |b.payload + more| > 0 && HoldsAt(mem, pos, Marked(b, checksum) + more)
    ensures LoadsAs(mem, pos, |Marked(b, checksum) + more|, reg, Outcome(CalibrationLoad, []))
  {
    Reassociate(EncodeHeader(Header(b.size, checksum, b.key)), b.payload, more);
    HeaderThen(mem, pos, Header(b.size, checksum, b.key), b.payload + more);
    FrontHeld(mem, pos + 12, b.payload, more);
    MarkedTurn(mem, pos, |Marked(b, checksum) + more|, b, checksum, reg);
  }

  lemma FrontHeld(mem: seq<Byte>, pos: nat, front: seq<Byte>, part: seq<Byte>)
    requires HoldsAt(mem, pos, front + part)
    ensures HoldsAt(mem, pos, front)
  {
    SliceOf(mem, pos, |front + part|, 0, |front|);
    assert (front + part)[0..|front|] == front;
  }

  lemma PartHeld(mem: seq<Byte>, pos: nat, front: seq<Byte>, part: seq<Byte>)
    requires HoldsAt(mem, pos, front + part)
    ensures HoldsAt(mem, pos + |front|, part)
  {
    SliceOf(mem, pos, |front + part|, |front|, |part|);
    assert (front + part)[|front|..|front| + |part|] == part;
  }

  lemma HeaderThen(mem: seq<Byte>, pos: nat, hd: Header, bytes: seq<Byte>)
    requires ValidHeader(hd) && HoldsAt(mem, pos, EncodeHeader(hd) + bytes)
    ensures pos + 12 <= |mem| && HeaderAt(mem, pos) == hd && HoldsAt(mem, pos + 12, bytes)
  {
    FrontHeld(mem, pos, EncodeHeader(hd), bytes);
    PartHeld(mem, pos, EncodeHeader(hd), bytes);
    HeaderRoundTrip(hd, mem, pos);
  }

  lemma OversizedBox(mem: seq<Byte>, pos: nat, size: int, checksum: int, key: int, bytes: seq<Byte>, reg: seq<Box>)
    requires ValidHeader(Header(size, checksum, key)) && 0 < |bytes| < size
    requires HoldsAt(mem, pos, Oversized(size, checksum, key, bytes))
    ensures LoadsAs(mem, pos, 12 + |bytes|, reg, Outcome(Success, []))
  {
    HeaderThen(mem, pos, Header(size, checksum, key), bytes);
  }

  /** An image with this body and right outer checks. */
  function Wrapped(body: seq<Byte>): seq<Byte> {
    EncodeHeader(Header(12 + |body|, Hash(body), DEFAULT_KEY)) + body
  }

  lemma LoadWrapped(body: seq<Byte>, slack: seq<Byte>, length: nat, reg: seq<Box>, e: Outcome)
    requires 12 <= length <= |Wrapped(body) + slack| && 12 + |body| < 0x8000_0000
    requires LoadsAs(Wrapped(body) + slack, 12, |body|, reg, e)
    ensures LoadSafe(Wrapped(body) + slack, length, reg)
    ensures LoadImage(Wrapped(body) + slack, length, reg) == e
  {
    var hd := Header(12 + |body|, Hash(body), DEFAULT_KEY);
    Reassociate(EncodeHeader(hd), body, slack);
    var mem := Wrapped(body) + slack;
    assert mem[0..|mem|] == mem;
    HeaderThen(mem, 0, hd, body + slack);
    assert mem[12..12 + |body|] == body;
  }

  lemma BodyHeld(body: seq<Byte>, slack: seq<Byte>)
    ensures HoldsAt(Wrapped(body) + slack, 12, body)
  {
  }

  /** Main result: a shared box whose own checksum is wrong, in an image whose outer checks pass,
      is the load error; the good boxes before it have been delivered, it and all after it are
      not. */
  lemma WrongBoxStopsLoad(good: seq<Box>, b: Box, checksum: int, more: seq<Byte>,
                          slack: seq<Byte>, length: nat, reg: seq<Box>)
    requires Good(good, reg) && DistinctKeys(reg)
    requires ValidBox(b) && Has(reg, b.key) && !Resized(b, reg) && |b.payload + more| > 0
    requires 0 <= checksum < 0x1_0000_0000 && checksum != Hash(b.payload)
    requires var body := Body(good) + (Marked(b, checksum) + more);
      12 + |body| < 0x8000_0000 && 12 <= length <= |Wrapped(body) + slack|
    ensures var mem := Wrapped(Body(good) + (Marked(b, checksum) + more)) + slack;
      LoadSafe(mem, length, reg) && LoadImage(mem, length, reg) == Outcome(CalibrationLoad, Shared(good, reg))
  {
    var rest := Marked(b, checksum) + more;
    var body := Body(good) + rest;
    var mem := Wrapped(body) + slack;
    BodyHeld(body, slack);
    PartHeld(mem, 12, Body(good), rest);
    MarkedBox(mem, 12 + |Body(good)|, b, checksum, more, reg);
    GoodThen(mem, 12, good, rest, 12 + |Body(good)|, reg, Outcome(CalibrationLoad, []));
    assert Shared(good, reg) + [] == Shared(good, reg);
    LoadWrapped(body, slack, length, reg, Outcome(CalibrationLoad, Shared(good, reg)));
  }

  /** Main result: a last box that claims more bytes than are left, known or not, ends the load
      with success: the good boxes before it have been delivered, it is not. */
  lemma CutBoxEndsLoad(good: seq<Box>, size: int, checksum: int, key: int, bytes: seq<Byte>,
                       slack: seq<Byte>, length: nat, reg: seq<Box>)
    requires Good(good, reg) && DistinctKeys(reg)
    requires ValidHeader(Header(size, checksum, key)) && 0 < |bytes| < size
    requires var body := Body(good) + Oversized(size, checksum, key, bytes);
      12 + |body| < 0x8000_0000 && 12 <= length <= |Wrapped(body) + slack|
    ensures var mem := Wrapped(Body(good) + Oversized(size, checksum, key, bytes)) + slack;
      LoadSafe(mem, length, reg) && LoadImage(mem, length, reg) == Outcome(Success, Shared(good, reg))
  {
    var rest := Oversized(size, checksum, key, bytes);
    var body := Body(good) + rest;
    var mem := Wrapped(body) + slack;
    BodyHeld(body, slack);
    PartHeld(mem, 12, Body(good), rest);
    OversizedBox(mem, 12 + |Body(good)|, size, checksum, key, bytes, reg);
    GoodThen(mem, 12, good, rest, 12 + |Body(good)|, reg, Outcome(Success, []));
    assert Shared(good, reg) + [] == Shared(good, reg);
    LoadWrapped(body, slack, length, reg, Outcome(Success, Shared(good, reg)));
  }

  // ---------------------------------------------------------------- the bytes

  /** For instance: the words lie in the order size, checksum, key, lowest byte first, and the
      payload follows. */
  lemma BoxBytesExample()
    ensures EncodeHeader(Header(0x01020304, 0x05060708, 29681)) == [4, 3, 2, 1, 8, 7, 6, 5, 0xF1, 0x73, 0, 0]
    ensures BoxImage(Box(7, 1, [97])) == [1, 0, 0, 0, 6, 0xB6, 2, 0, 7, 0, 0, 0, 97]
  {
    HashExamples();
    assert EncodeWord(0x01020304) == [4, 3, 2, 1] && EncodeWord(0x05060708) == [8, 7, 6, 5];
    assert EncodeWord(29681) == [0xF1, 0x73, 0, 0];
    assert EncodeWord(1) == [1, 0, 0, 0] && EncodeWord(177670) == [6, 0xB6, 2, 0] && EncodeWord(7) == [7, 0, 0, 0];
  }
}
