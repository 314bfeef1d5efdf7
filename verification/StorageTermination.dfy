/** When the box loop of `inv_load_mpl_states` ends. */
module StorageTermination {
  import opened Checksum
  import opened Int32
  import opened StorageFormat

  /** The loop ends within n turns, reading inside memory and never moving its cursor back. */
  ghost predicate EndsWithin(mem: seq<Byte>, pos: nat, len: int, reg: seq<Box>, n: nat)
    decreases n
  {
    len <= 12 || (
      && n > 0
      && Readable(mem, pos, len, reg)
      && (LastTurn(mem, pos, len, reg) || (
            && var size := HeaderAt(mem, pos).size;
            && -12 <= size
            && EndsWithin(mem, pos + 12 + size, len - 12 - size, reg, n - 1))))
  }

  ghost predicate Ends(mem: seq<Byte>, pos: nat, len: int, reg: seq<Box>) {
    exists n: nat :: EndsWithin(mem, pos, len, reg, n)
  }

  lemma {:induction false} MoreTurns(mem: seq<Byte>, pos: nat, len: int, reg: seq<Box>, m: nat, n: nat)
    requires m <= n && EndsWithin(mem, pos, len, reg, m)
    ensures EndsWithin(mem, pos, len, reg, n)
    decreases n
  {
    if len > 12 && !LastTurn(mem, pos, len, reg) {
      var size := HeaderAt(mem, pos).size;
      MoreTurns(mem, pos + 12 + size, len - 12 - size, reg, m - 1, n - 1);
    }
  }

  /** Every turn takes at least one byte off the remaining length. */
  lemma {:induction false} WalkEnds(mem: seq<Byte>, pos: nat, len: int, reg: seq<Box>)
    requires Walkable(mem, pos, len, reg)
    ensures EndsWithin(mem, pos, len, reg, if len < 0 then 0 else len)
    decreases len
  {
    if len > 12 && !LastTurn(mem, pos, len, reg) {
      var size := HeaderAt(mem, pos).size;
      var rest := len - 12 - size;
      WalkEnds(mem, pos + 12 + size, rest, reg);
      MoreTurns(mem, pos + 12 + size, rest, reg, if rest < 0 then 0 else rest, len - 1);
    }
  }

  /** The loop steps over a header of size -12, which leaves cursor and length alone. */
  predicate StandsStill(mem: seq<Byte>, pos: nat, len: int, reg: seq<Box>) {
    && Readable(mem, pos, len, reg)
    && !LastTurn(mem, pos, len, reg)
    && HeaderAt(mem, pos).size == -12
  }

  lemma {:induction false} NeverEnds(mem: seq<Byte>, pos: nat, len: int, reg: seq<Box>, n: nat)
    requires StandsStill(mem, pos, len, reg)
    ensures !EndsWithin(mem, pos, len, reg, n)
    decreases n
  {
    if n > 0 {
      NeverEnds(mem, pos, len, reg, n - 1);
    }
  }

  lemma {:induction false} EndingWalks(mem: seq<Byte>, pos: nat, len: int, reg: seq<Box>, n: nat)
    requires EndsWithin(mem, pos, len, reg, n)
    ensures Walkable(mem, pos, len, reg)
    decreases n
  {
    if len > 12 && !LastTurn(mem, pos, len, reg) {
      var size := HeaderAt(mem, pos).size;
      if size == -12 {
        NeverEnds(mem, pos, len, reg, n);
      } else {
        EndingWalks(mem, pos + 12 + size, len - 12 - size, reg, n - 1);
      }
    }
  }

  /** Main result: a loop that does not move its cursor back ends if and only if it never steps
      over a header of size -12. */
  lemma EndsIffWalkable(mem: seq<Byte>, pos: nat, len: int, reg: seq<Box>)
    ensures Ends(mem, pos, len, reg) <==> Walkable(mem, pos, len, reg)
  {
    if Walkable(mem, pos, len, reg) {
      WalkEnds(mem, pos, len, reg);
    }
    if Ends(mem, pos, len, reg) {
      var n: nat :| EndsWithin(mem, pos, len, reg, n);
      EndingWalks(mem, pos, len, reg, n);
    }
  }

  const HANGING_HEADER := Header(-12, 0, 7)

  function HangingBody(): seq<Byte> {
    EncodeHeader(HANGING_HEADER) + [0]
  }

  /** One box of size -12 under a key, and a byte more. */
  function HangingImage(): seq<Byte> {
    EncodeHeader(Header(25, Hash(HangingBody()), DEFAULT_KEY)) + HangingBody()
  }

  lemma HangingLayout()
    ensures |HangingImage()| == 25
    ensures HeaderAt(HangingImage(), 0) == Header(25, Hash(HangingBody()), DEFAULT_KEY)
    ensures HangingImage()[12..25] == HangingBody()
    ensures HeaderAt(HangingImage(), 12) == HANGING_HEADER
  {
    var hd := Header(25, Hash(HangingBody()), DEFAULT_KEY);
    var mem := HangingImage();
    assert mem[0..12] == EncodeHeader(hd);
    HeaderRoundTrip(hd, mem, 0);
    assert mem[12..25] == HangingBody();
    assert mem[12..24] == EncodeHeader(HANGING_HEADER);
    HeaderRoundTrip(HANGING_HEADER, mem, 12);
  }

  /** For instance: an image of 25 bytes that passes the outer checks and, loaded where key 7
      is not registered, keeps the loop turning for ever. */
  lemma HangingExample(reg: seq<Box>)
    requires Find(reg, 7) < 0
    ensures var mem := HangingImage();
      && |mem| == 25 && HeaderAt(mem, 0).size == 25
      && HeaderAt(mem, 0).key == DEFAULT_KEY && Hash(mem[12..25]) == HeaderAt(mem, 0).checksum
      && !Ends(mem, 12, 13, reg) && !LoadSafe(mem, 25, reg)
  {
    var mem := HangingImage();
    HangingLayout();
    assert StandsStill(mem, 12, 13, reg);
    forall n: nat
      ensures !EndsWithin(mem, 12, 13, reg, n)
    {
      NeverEnds(mem, 12, 13, reg, n);
    }
    EndsIffWalkable(mem, 12, 13, reg);
  }
}
