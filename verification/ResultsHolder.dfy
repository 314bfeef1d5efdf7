/** The lazily recomputed 9-axis quaternion of results_holder.c. */
module ResultsHolder {
  import opened Int32
  import opened Quaternion
  import opened Quaternion32

  const INV_COMPASS_CORRECTION_SET: bv32 := 1
  const INV_6_AXIS_QUAT_SET: bv32 := 2

  // ---------------------------------------------------------------- one call at a time

  datatype State = State(nav: Quat, gam: Quat, correction: Quat, status: bv32)

  datatype Call = StoreGamingQuaternion(quat: Quat) | SetCompassCorrection(data: Quat) | GetQuaternion | GetGravity

  const INITIAL := State(IDENTITY, IDENTITY, IDENTITY, 0)

  predicate Dirty(s: State) {
    s.status & (INV_COMPASS_CORRECTION_SET | INV_6_AXIS_QUAT_SET) != 0
  }

  /** The cache argument does not look inside the product, so it is a parameter here;
      `QMult32` is what the code uses. */
  type Mult = (Quat, Quat) -> Quat

  function After(mult: Mult, s: State, call: Call): State {
    match call
    case StoreGamingQuaternion(quat) => s.(status := s.status | INV_6_AXIS_QUAT_SET, gam := quat)
    case SetCompassCorrection(data) => s.(status := s.status | INV_COMPASS_CORRECTION_SET, correction := data)
    case GetQuaternion =>
      if Dirty(s) then
        s.(nav := mult(s.correction, s.gam),
           status := s.status & !(INV_COMPASS_CORRECTION_SET | INV_6_AXIS_QUAT_SET))
      else s
    case GetGravity => s
  }

  /** The third row of the 32-bit rotation matrix of `q`. */
  function Gravity(q: Quat): Vec3 {
    WrapMat(QRotation(q)).row2
  }

  // ---------------------------------------------------------------- whole histories

  function Run(mult: Mult, calls: seq<Call>): State {
    if calls == [] then INITIAL else After(mult, Run(mult, calls[..|calls| - 1]), calls[|calls| - 1])
  }

  /** The latest 6-axis quaternion stored, the identity before the first. */
  function LatestGaming(calls: seq<Call>): Quat {
    if calls == [] then IDENTITY
    else if calls[|calls| - 1].StoreGamingQuaternion? then calls[|calls| - 1].quat
    else LatestGaming(calls[..|calls| - 1])
  }

  function LatestCorrection(calls: seq<Call>): Quat {
    if calls == [] then IDENTITY
    else if calls[|calls| - 1].SetCompassCorrection? then calls[|calls| - 1].data
    else LatestCorrection(calls[..|calls| - 1])
  }

  /** What `inv_get_quaternion` promises after these calls. */
  function Product(mult: Mult, calls: seq<Call>): Quat {
    mult(LatestCorrection(calls), LatestGaming(calls))
  }

  /** The product as it stood at the last `inv_get_quaternion`. */
  function Fetched(mult: Mult, calls: seq<Call>): Quat {
    if calls == [] then IDENTITY
    else if calls[|calls| - 1].GetQuaternion? then Product(mult, calls)
    else Fetched(mult, calls[..|calls| - 1])
  }

  lemma IdentityProduct()
    ensures QMult32(IDENTITY, IDENTITY) == IDENTITY
  {
    IdentityIsNeutral(IDENTITY);
    WrapExact(ONE);
    WrapExact(0);
  }

  lemma ClearsBits(b: bv32)
    ensures (b & !(1 | 2)) & (1 | 2) == 0
    ensures (b | 1) & (1 | 2) != 0 && (b | 2) & (1 | 2) != 0
  {
  }

  /** A clean cache holds the product of the current inputs. */
  predicate Coherent(mult: Mult, s: State) {
    !Dirty(s) ==> s.nav == mult(s.correction, s.gam)
  }

  lemma CallKeepsCoherent(mult: Mult, s: State, call: Call)
    requires Coherent(mult, s)
    ensures Coherent(mult, After(mult, s, call))
    ensures call.GetQuaternion? ==> After(mult, s, call).nav == mult(s.correction, s.gam)
  {
    ClearsBits(s.status);
  }

  /** Main result: in every history the cache holds exactly the product of the last fetch,
      and a clean cache holds the current product. */
  lemma {:induction false} CacheInvariant(mult: Mult, calls: seq<Call>)
    requires mult(IDENTITY, IDENTITY) == IDENTITY
    ensures var s := Run(mult, calls);
      && s.gam == LatestGaming(calls) && s.correction == LatestCorrection(calls)
      && s.nav == Fetched(mult, calls)
      && Coherent(mult, s)
  {
    if calls != [] {
      CacheInvariant(mult, calls[..|calls| - 1]);
      CallKeepsCoherent(mult, Run(mult, calls[..|calls| - 1]), calls[|calls| - 1]);
    }
  }

  /** `inv_get_quaternion` returns the product of the latest inputs in every history, from
      the initial state on, although it recomputes only when a dirty bit is set. */
  lemma QuaternionIsLatestProduct(calls: seq<Call>)
    ensures Run(QMult32, calls + [GetQuaternion]).nav == QMult32(LatestCorrection(calls), LatestGaming(calls))
  {
    IdentityProduct();
    FetchReturnsProduct(QMult32, calls);
  }

  lemma FetchReturnsProduct(mult: Mult, calls: seq<Call>)
    requires mult(IDENTITY, IDENTITY) == IDENTITY
    ensures Run(mult, calls + [GetQuaternion]).nav == Product(mult, calls)
  {
    var all := calls + [GetQuaternion];
    CacheInvariant(mult, all);
    assert all[..|all| - 1] == calls;
  }

  /** From a fetch until the next input is set the cache, and so the gravity computed from
      it, is that of the latest inputs. */
  lemma {:induction false} FetchedAfter(mult: Mult, calls: seq<Call>, later: seq<Call>)
    requires mult(IDENTITY, IDENTITY) == IDENTITY
    requires forall i :: 0 <= i < |later| ==> later[i].GetGravity? || later[i].GetQuaternion?
    ensures Run(mult, calls + [GetQuaternion] + later).nav == Product(mult, calls + [GetQuaternion] + later)
  {
    var all := calls + [GetQuaternion] + later;
    CacheInvariant(mult, all);
    if later != [] {
      assert all[..|all| - 1] == calls + [GetQuaternion] + later[..|later| - 1];
      CacheInvariant(mult, all[..|all| - 1]);
      FetchedAfter(mult, calls, later[..|later| - 1]);
    }
  }

  /** The order matters: an input set after the last fetch does not reach gravity. */
  lemma GravityStale(mult: Mult, calls: seq<Call>, data: Quat)
    requires mult(IDENTITY, IDENTITY) == IDENTITY
    ensures Run(mult, calls + [SetCompassCorrection(data)]).nav == Fetched(mult, calls)
    ensures Run(mult, calls + [StoreGamingQuaternion(data)]).nav == Fetched(mult, calls)
  {
    CacheInvariant(mult, calls);
    assert (calls + [SetCompassCorrection(data)])[..|calls|] == calls;
    assert (calls + [StoreGamingQuaternion(data)])[..|calls|] == calls;
  }

  // ---------------------------------------------------------------- when gravity is right

  /** The compass correction as it stood at the last `inv_get_quaternion`. */
  function FetchedCorrection(calls: seq<Call>): Quat {
    if calls == [] then IDENTITY
    else if calls[|calls| - 1].GetQuaternion? then LatestCorrection(calls)
    else FetchedCorrection(calls[..|calls| - 1])
  }

  function FetchedGaming(calls: seq<Call>): Quat {
    if calls == [] then IDENTITY
    else if calls[|calls| - 1].GetQuaternion? then LatestGaming(calls)
    else FetchedGaming(calls[..|calls| - 1])
  }

  lemma {:induction false} FetchedIsProduct(mult: Mult, calls: seq<Call>)
    requires mult(IDENTITY, IDENTITY) == IDENTITY
    ensures Fetched(mult, calls) == mult(FetchedCorrection(calls), FetchedGaming(calls))
  {
    if calls != [] && !calls[|calls| - 1].GetQuaternion? {
      FetchedIsProduct(mult, calls[..|calls| - 1]);
    }
  }

  /** The inputs have the values they had at the last fetch. */
  predicate InputsAsFetched(calls: seq<Call>) {
    FetchedCorrection(calls) == LatestCorrection(calls) && FetchedGaming(calls) == LatestGaming(calls)
  }

  predicate KeepsIdentity(mult: Mult) {
    mult(IDENTITY, IDENTITY) == IDENTITY
  }

  /** The cache, from which gravity is computed, is that of the latest inputs. */
  ghost predicate UpToDate(mult: Mult, calls: seq<Call>) {
    Run(mult, calls).nav == Product(mult, calls)
  }

  /** Main result: for any one product, the code's own included, the cache is that of the latest
      inputs exactly when the inputs at the last fetch and the latest ones have one product. */
  lemma UpToDateIff(mult: Mult, calls: seq<Call>)
    requires KeepsIdentity(mult)
    ensures UpToDate(mult, calls)
      <==> mult(FetchedCorrection(calls), FetchedGaming(calls)) == mult(LatestCorrection(calls), LatestGaming(calls))
  {
    CacheInvariant(mult, calls);
    FetchedIsProduct(mult, calls);
  }

  const MINUS_ONE := Quat(-ONE, 0, 0, 0)

  lemma MinusOneSquared()
    ensures QMult32(MINUS_ONE, MINUS_ONE) == IDENTITY
  {
    assert Q30(-ONE, -ONE) == ONE && Q30(-ONE, 0) == 0 && Q30(0, -ONE) == 0 && Q30(0, 0) == 0;
    WrapExact(ONE);
    WrapExact(0);
  }

  /** So equal inputs are not needed for the code's product: negate both and fetch nothing, and
      the cache still holds their product. */
  lemma NegatedInputsExample()
    ensures var calls := [SetCompassCorrection(MINUS_ONE), StoreGamingQuaternion(MINUS_ONE)];
      !InputsAsFetched(calls) && UpToDate(QMult32, calls)
  {
    var calls := [SetCompassCorrection(MINUS_ONE), StoreGamingQuaternion(MINUS_ONE)];
    BothSet(calls, MINUS_ONE);
    var mult: Mult := QMult32;
    assert mult(IDENTITY, IDENTITY) == IDENTITY == mult(MINUS_ONE, MINUS_ONE) by {
      IdentityProduct();
      MinusOneSquared();
    }
    SameProduct(mult, calls, MINUS_ONE);
  }

  lemma SameProduct(mult: Mult, calls: seq<Call>, q: Quat)
    requires FetchedCorrection(calls) == FetchedGaming(calls) == IDENTITY
    requires LatestCorrection(calls) == LatestGaming(calls) == q
    requires mult(IDENTITY, IDENTITY) == IDENTITY == mult(q, q)
    ensures UpToDate(mult, calls)
  {
    UpToDateIff(mult, calls);
  }

  lemma BothSet(calls: seq<Call>, q: Quat)
    requires calls == [SetCompassCorrection(q), StoreGamingQuaternion(q)]
    ensures FetchedCorrection(calls) == FetchedGaming(calls) == IDENTITY
    ensures LatestCorrection(calls) == LatestGaming(calls) == q
  {
    assert calls[..1] == [SetCompassCorrection(q)] && calls[..1][..0] == [];
    assert FetchedCorrection(calls[..1]) == FetchedCorrection([]) && FetchedGaming(calls[..1]) == FetchedGaming([]);
  }

  /** A product that tells one pair of inputs from another. */
  function Telling(p: Quat, q: Quat): Mult {
    if (p, q) == (IDENTITY, IDENTITY) then
      (x, y) => if (x, y) == (IDENTITY, IDENTITY) then IDENTITY else Quat(0, 0, 0, 0)
    else
      (x, y) => if (x, y) == (p, q) then Quat(0, 0, 0, 0) else IDENTITY
  }

  lemma TellsApart(p: Quat, q: Quat, r: Quat, s: Quat)
    requires (p, q) != (r, s)
    ensures KeepsIdentity(Telling(p, q)) && Telling(p, q)(p, q) != Telling(p, q)(r, s)
  {
  }

  /** The cache, and so gravity, is that of the latest inputs whatever the product
      does exactly when both inputs have the values they had at the last fetch. */
  lemma GravityRightIff(calls: seq<Call>)
    ensures (forall mult: Mult :: KeepsIdentity(mult) ==> UpToDate(mult, calls)) <==> InputsAsFetched(calls)
  {
    forall mult: Mult | KeepsIdentity(mult)
      ensures Run(mult, calls).nav == mult(FetchedCorrection(calls), FetchedGaming(calls))
    {
      CacheInvariant(mult, calls);
      FetchedIsProduct(mult, calls);
    }
    if !InputsAsFetched(calls) {
      var telling := Telling(FetchedCorrection(calls), FetchedGaming(calls));
      TellsApart(FetchedCorrection(calls), FetchedGaming(calls), LatestCorrection(calls), LatestGaming(calls));
      assert KeepsIdentity(telling) && !UpToDate(telling, calls);
    }
  }

  const HALF_TURN := Quat(0, ONE, 0, 0)

  lemma GravityUp(q: Quat)
    ensures Gravity(q).z == Wrap32(Q29(q.z, q.z) + Q29(q.w, q.w) - ONE)
  {
  }

  lemma HalfTurnGravity()
    ensures Gravity(IDENTITY).z == ONE
    ensures Gravity(HALF_TURN).z == -ONE
  {
    GravityUp(IDENTITY);
    GravityUp(HALF_TURN);
    var up, zero := Q29(ONE, ONE), Q29(0, 0);
    assert up == 2 * ONE by {
      UnitSquareDoubled();
    }
    assert zero == 0;
    WrapExact(ONE);
    WrapExact(-ONE);
  }

  lemma HalfTurnProduct()
    ensures QMult32(HALF_TURN, IDENTITY) == HALF_TURN
  {
    IdentityIsNeutral(HALF_TURN);
    WrapExact(ONE);
    WrapExact(0);
  }

  lemma OnlyCorrection(mult: Mult, data: Quat)
    ensures var calls := [SetCompassCorrection(data)];
      Run(mult, calls).nav == IDENTITY && Product(mult, calls) == mult(data, IDENTITY)
  {
    var calls := [SetCompassCorrection(data)];
    assert calls[..0] == [];
    assert LatestGaming(calls) == LatestGaming([]);
  }

  /** For instance: after a half turn of the compass correction that nobody has fetched,
      gravity still points up, while that of the latest inputs points down. */
  lemma GravityWrongExample()
    ensures var calls := [SetCompassCorrection(HALF_TURN)];
      Gravity(Run(QMult32, calls).nav).z == ONE && Gravity(Product(QMult32, calls)).z == -ONE
  {
    OnlyCorrection(QMult32, HALF_TURN);
    HalfTurnProduct();
    HalfTurnGravity();
  }

  // ---------------------------------------------------------------- what gravity is

  /** Gravity is the vertical axis seen from the sensor: for every vector v the inner product of
      gravity and v is the vertical component of v rotated by q, up to (|q|^2 - 1) v and 21 units.
      It holds below the squared length 3/2, up to which no word of the matrix overflows. */
  lemma GravityIsVertical(q: Quat, v: Vec3)
    requires Bounded(q, v) && Norm2(q) < 3 * 0x800_0000_0000_0000
    ensures Agree(Dot(Gravity(q), v), QRotate(q, v).z, Norm2(q), v.z)
  {
    RotationExact32(q);
    AgreeZ(q, v);
  }

  /** Main result: so it is, right after a fetch in any history, for the product of the latest
      inputs. */
  lemma FetchedGravityIsVertical(calls: seq<Call>, v: Vec3)
    requires var q := Product(QMult32, calls); Bounded(q, v) && Norm2(q) < 3 * 0x800_0000_0000_0000
    ensures var q := Product(QMult32, calls);
      Agree(Dot(Gravity(Run(QMult32, calls + [GetQuaternion]).nav), v), QRotate(q, v).z, Norm2(q), v.z)
  {
    QuaternionIsLatestProduct(calls);
    GravityIsVertical(Product(QMult32, calls), v);
  }

  /** For instance: a third of a turn about the diagonal takes the y axis to the vertical. */
  lemma DiagonalTurnGravity()
    ensures Gravity(Quat(0x2000_0000, 0x2000_0000, 0x2000_0000, 0x2000_0000)) == Vec3(0, ONE, 0)
  {
    var half := 0x2000_0000;
    assert Q29(half, half) == half;
    WrapExact(ONE);
    WrapExact(0);
  }

  // ---------------------------------------------------------------- the module's state

  /** Every component is a 32-bit word. */
  predicate Words(q: Quat) {
    Fits32(q.w) && Fits32(q.x) && Fits32(q.y) && Fits32(q.z)
  }

  lemma ProductWords(p: Quat, q: Quat)
    ensures Words(QMult32(p, q))
  {
  }

  /** The part of the static `rh` that concerns the quaternions. */
  class Results {
    var navQuat: Quat
    var gamQuat: Quat
    var compassCorrection: Quat
    var gamTimestamp: int
    var navTimestamp: int
    var status: bv32

    ghost function Now(): State
      reads this
    {
      State(navQuat, gamQuat, compassCorrection, status)
    }

    ghost predicate Valid()
      reads this
    {
      Words(navQuat)
    }

    /** `inv_init_results_holder`. */
    constructor ()
      ensures Valid() && Now() == INITIAL
    {
      navQuat, gamQuat, compassCorrection := IDENTITY, IDENTITY, IDENTITY;
      gamTimestamp, navTimestamp, status := 0, 0, 0;
    }

    /** `inv_store_gaming_quaternion`. */
    method StoreGaming(quat: Quat, timestamp: int)
      requires Valid()
      modifies this
      ensures Valid() && Now() == After(QMult32, old(Now()), StoreGamingQuaternion(quat))
      ensures gamTimestamp == timestamp && navTimestamp == old(navTimestamp)
    {
      status := status | INV_6_AXIS_QUAT_SET;
      gamQuat := quat;
      gamTimestamp := timestamp;
    }

    /** `inv_set_compass_correction`. */
    method SetCorrection(data: Quat, timestamp: int)
      requires Valid()
      modifies this
      ensures Valid() && Now() == After(QMult32, old(Now()), SetCompassCorrection(data))
      ensures navTimestamp == timestamp && gamTimestamp == old(gamTimestamp)
    {
      status := status | INV_COMPASS_CORRECTION_SET;
      compassCorrection := data;
      navTimestamp := timestamp;
    }

    /** `inv_get_quaternion`. */
    method Quaternion() returns (data: Quat)
      requires Valid()
      modifies this
      ensures Valid() && Now() == After(QMult32, old(Now()), GetQuaternion)
      ensures data == navQuat
      ensures gamTimestamp == old(gamTimestamp) && navTimestamp == old(navTimestamp)
    {
      if status & (INV_COMPASS_CORRECTION_SET | INV_6_AXIS_QUAT_SET) != 0 {
        ProductWords(compassCorrection, gamQuat);
        navQuat := QMult32(compassCorrection, gamQuat);
        status := status & !(INV_COMPASS_CORRECTION_SET | INV_6_AXIS_QUAT_SET);
      }
      data := navQuat;
    }

    /** `inv_get_gravity`. */
    method GravityVector() returns (data: Vec3)
      requires Valid()
      ensures data == Gravity(navQuat)
    {
      var q := navQuat;
      var x := OffDiagonal(q.x, q.z, false, q.y, q.w);
      var y := OffDiagonal(q.y, q.z, true, q.x, q.w);
      var z := Diagonal(q.z, q.w);
      data := Vec3(x, y, z);
    }
  }
}
