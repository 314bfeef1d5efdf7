/** The callback table of data_builder.c: an array kept sorted by priority by in-place
    insertion and deletion. */
module Callbacks {

  const INV_MAX_DATA_CB := 20

  datatype Error = Success | InvalidParameter | MemoryExhausted

  /** `struct process_t`; a function pointer is its address. */
  datatype Process = Process(func: nat, priority: int, required: bv32)

  // ---------------------------------------------------------------- the table as a value

  /** Entry i is called before entry j and is another function. */
  ghost predicate Before(t: seq<Process>, i: nat, j: nat)
    requires i < |t| && j < |t|
  {
    t[i].priority < t[j].priority && t[i].func != t[j].func
  }

  /** Strictly sorted by priority, with distinct functions. */
  ghost predicate Ordered(t: seq<Process>) {
    forall i: nat, j: nat {:trigger Before(t, i, j)} :: i < j < |t| ==> Before(t, i, j)
  }

  ghost predicate ValidTable(t: seq<Process>) {
    Ordered(t) && |t| <= INV_MAX_DATA_CB
  }

  predicate Clashes(t: seq<Process>, func: nat, priority: int) {
    exists i: nat :: i < |t| && (t[i].func == func || t[i].priority == priority)
  }

  /** How many entries come before the given priority. */
  function Position(t: seq<Process>, priority: int): (k: nat)
    ensures k <= |t|
    ensures k < |t| ==> t[k].priority >= priority
    ensures forall i: nat :: i < k ==> t[i].priority < priority
  {
    if t == [] || t[0].priority >= priority then 0 else 1 + Position(t[1..], priority)
  }

  function Insert(t: seq<Process>, p: Process): seq<Process> {
    var k := Position(t, p.priority);
    t[..k] + [p] + t[k..]
  }

  /** The entry of a function, |t| if it has none. */
  function Find(t: seq<Process>, func: nat): (k: nat)
    ensures k <= |t|
    ensures k < |t| ==> t[k].func == func
    ensures forall i: nat :: i < k ==> t[i].func != func
  {
    if t == [] || t[0].func == func then 0 else 1 + Find(t[1..], func)
  }

  function Delete(t: seq<Process>, func: nat): seq<Process> {
    var k := Find(t, func);
    if k < |t| then t[..k] + t[k + 1..] else t
  }

  datatype Registered = Registered(result: Error, table: seq<Process>)

  function Register(t: seq<Process>, p: Process): Registered {
    if Clashes(t, p.func, p.priority) then Registered(InvalidParameter, t)
    else if |t| < INV_MAX_DATA_CB then Registered(Success, Insert(t, p))
    else Registered(MemoryExhausted, t)
  }

  lemma InsertKeepsOrder(t: seq<Process>, p: Process)
    requires Ordered(t) && !Clashes(t, p.func, p.priority)
    ensures Ordered(Insert(t, p))
  {
    var k, r := Position(t, p.priority), Insert(t, p);
    forall i: nat, j: nat | i < j < |r|
      ensures Before(r, i, j)
    {
      if j < k {
        assert Before(t, i, j);
      } else if j == k {
        assert r[i] == t[i];
      } else if i < k {
        assert Before(t, i, j - 1);
      } else if i == k {
        AfterPosition(t, p.priority, j - 1);
        assert r[j] == t[j - 1];
      } else {
        assert Before(t, i - 1, j - 1);
      }
    }
  }

  lemma AfterPosition(t: seq<Process>, priority: int, j: nat)
    requires Ordered(t) && Position(t, priority) <= j < |t|
    ensures t[j].priority >= priority
  {
    if Position(t, priority) < j {
      assert Before(t, Position(t, priority), j);
    }
  }

  /** Registration keeps the table strictly sorted, functions distinct, and at most 20 long. */
  lemma RegisterKeepsValid(t: seq<Process>, p: Process)
    requires ValidTable(t)
    ensures ValidTable(Register(t, p).table)
  {
    if !Clashes(t, p.func, p.priority) {
      InsertKeepsOrder(t, p);
    }
  }

  lemma DeleteKeepsValid(t: seq<Process>, func: nat)
    requires ValidTable(t)
    ensures ValidTable(Delete(t, func))
  {
    var k, r := Find(t, func), Delete(t, func);
    forall i: nat, j: nat | i < j < |r|
      ensures Before(r, i, j)
    {
      assert Before(t, if i < k then i else i + 1, if j < k then j else j + 1);
    }
  }

  // ---------------------------------------------------------------- a table is its set

  function Members(t: seq<Process>): set<Process> {
    set p | p in t
  }

  lemma InsertMembers(t: seq<Process>, p: Process)
    ensures Members(Insert(t, p)) == Members(t) + {p}
  {
    var k := Position(t, p.priority);
    assert t == t[..k] + t[k..];
  }

  lemma NoneAfterFound(t: seq<Process>, func: nat)
    requires Ordered(t)
    ensures forall i: nat :: Find(t, func) < i < |t| ==> t[i].func != func
  {
    forall i: nat | Find(t, func) < i < |t|
      ensures t[i].func != func
    {
      assert Before(t, Find(t, func), i);
    }
  }

  lemma DeleteMembers(t: seq<Process>, func: nat)
    requires Ordered(t)
    ensures Members(Delete(t, func)) == set p | p in t && p.func != func
  {
    var k := Find(t, func);
    NoneAfterFound(t, func);
    if k < |t| {
      assert t == t[..k] + [t[k]] + t[k + 1..];
    }
  }

  /** Main result: a valid table is determined by its set of entries. */
  lemma {:induction false} TableIsItsSet(s: seq<Process>, t: seq<Process>)
    requires Ordered(s) && Ordered(t) && Members(s) == Members(t)
    ensures s == t
  {
    if s == [] {
      assert forall i: nat :: i < |t| ==> t[i] in Members(s);
    } else {
      assert s[0] in Members(t) && t != [];
      SameFirst(s, t);
      MembersTail(s);
      MembersTail(t);
      TableIsItsSet(s[1..], t[1..]);
      assert s == [s[0]] + s[1..] && t == [t[0]] + t[1..];
    }
  }

  lemma FirstIsLeast(t: seq<Process>, q: Process)
    requires Ordered(t) && q in t
    ensures t[0] == q || t[0].priority < q.priority
  {
    var i: nat :| i < |t| && t[i] == q;
    if i > 0 {
      assert Before(t, 0, i);
    }
  }

  lemma SameFirst(s: seq<Process>, t: seq<Process>)
    requires Ordered(s) && Ordered(t) && Members(s) == Members(t) && s != [] && t != []
    ensures s[0] == t[0]
  {
    assert s[0] in Members(t) && t[0] in Members(s);
    FirstIsLeast(t, s[0]);
    FirstIsLeast(s, t[0]);
  }

  lemma MembersTail(s: seq<Process>)
    requires Ordered(s) && s != []
    ensures Ordered(s[1..]) && Members(s[1..]) == Members(s) - {s[0]}
  {
    assert s == [s[0]] + s[1..];
    forall i: nat, j: nat | i < j < |s| - 1
      ensures Before(s[1..], i, j)
    {
      assert Before(s, i + 1, j + 1);
    }
    forall i: nat | 0 < i < |s|
      ensures s[i] != s[0]
    {
      assert Before(s, 0, i);
    }
  }

  // ---------------------------------------------------------------- whole histories

  datatype Call = Add(p: Process) | Remove(func: nat)

  function After(t: seq<Process>, call: Call): seq<Process> {
    match call
    case Add(p) => Register(t, p).table
    case Remove(func) => Delete(t, func)
  }

  function Run(calls: seq<Call>): seq<Process> {
    if calls == [] then [] else After(Run(calls[..|calls| - 1]), calls[|calls| - 1])
  }

  function AddToSet(was: set<Process>, p: Process): set<Process> {
    if |was| < INV_MAX_DATA_CB && forall q :: q in was ==> q.func != p.func && q.priority != p.priority
    then was + {p} else was
  }

  /** The registrations in force, as a set: no mention of order. */
  function InForce(calls: seq<Call>): set<Process> {
    if calls == [] then {}
    else
      var was := InForce(calls[..|calls| - 1]);
      match calls[|calls| - 1]
      case Add(p) => AddToSet(was, p)
      case Remove(func) => set q | q in was && q.func != func
  }

  lemma {:induction false} MembersCount(t: seq<Process>)
    requires Ordered(t)
    ensures |Members(t)| == |t|
  {
    if t != [] {
      MembersTail(t);
      MembersCount(t[1..]);
      assert Members(t) == Members(t[1..]) + {t[0]};
    }
  }

  lemma AddInForce(t: seq<Process>, p: Process)
    requires ValidTable(t)
    ensures ValidTable(Register(t, p).table)
    ensures Members(Register(t, p).table) == AddToSet(Members(t), p)
  {
    RegisterKeepsValid(t, p);
    InsertMembers(t, p);
    ClashesMembers(t, p);
    MembersCount(t);
  }

  lemma {:induction false} RunInvariant(calls: seq<Call>)
    ensures ValidTable(Run(calls)) && Members(Run(calls)) == InForce(calls)
  {
    if calls != [] {
      var t := Run(calls[..|calls| - 1]);
      RunInvariant(calls[..|calls| - 1]);
      match calls[|calls| - 1] {
        case Add(p) =>
          AddInForce(t, p);
        case Remove(func) =>
          DeleteKeepsValid(t, func);
          DeleteMembers(t, func);
      }
    }
  }

  lemma ClashesMembers(t: seq<Process>, p: Process)
    ensures !Clashes(t, p.func, p.priority)
      <==> forall q :: q in Members(t) ==> q.func != p.func && q.priority != p.priority
  {
    if !Clashes(t, p.func, p.priority) {
      forall q | q in Members(t)
        ensures q.func != p.func && q.priority != p.priority
      {
        var i :| 0 <= i < |t| && t[i] == q;
      }
    } else {
      var i: nat :| i < |t| && (t[i].func == p.func || t[i].priority == p.priority);
      assert t[i] in Members(t);
    }
  }

  /** What registration answers: a used function or priority comes before a full table, and
      every failure leaves the table alone. */
  lemma RegisterResult(t: seq<Process>, p: Process)
    requires ValidTable(t)
    ensures var r, free := Register(t, p),
                           forall q :: q in Members(t) ==> q.func != p.func && q.priority != p.priority;
      && (r.result == InvalidParameter <==> !free)
      && (r.result == MemoryExhausted <==> free && |Members(t)| == 20)
      && (r.result == Success <==> free && |Members(t)| < 20)
      && Members(r.table) == if r.result == Success then Members(t) + {p} else Members(t)
  {
    ClashesMembers(t, p);
    MembersCount(t);
    InsertMembers(t, p);
  }

  /** Main result: histories that leave the same registrations in force leave the same table,
      whatever the order and whatever failed on the way. */
  lemma OrderDoesNotMatter(a: seq<Call>, b: seq<Call>)
    requires InForce(a) == InForce(b)
    ensures Run(a) == Run(b)
  {
    RunInvariant(a);
    RunInvariant(b);
    TableIsItsSet(Run(a), Run(b));
  }

  /** Unregistering a function just registered restores the table exactly. */
  lemma RegisterUnregister(t: seq<Process>, p: Process)
    requires ValidTable(t) && Register(t, p).result == Success
    ensures Delete(Register(t, p).table, p.func) == t
  {
    var r := Register(t, p).table;
    RegisterKeepsValid(t, p);
    DeleteKeepsValid(r, p.func);
    InsertMembers(t, p);
    DeleteMembers(r, p.func);
    ClashesMembers(t, p);
    forall q
      ensures q in Members(Delete(r, p.func)) <==> q in Members(t)
    {
      assert q in r <==> q in Members(r);
    }
    TableIsItsSet(Delete(r, p.func), t);
  }

  // ---------------------------------------------------------------- the array

  class CallbackTable {
    var numCb: nat
    const process: array<Process>

    ghost predicate Valid()
      reads this, process
    {
      process.Length == INV_MAX_DATA_CB && numCb <= INV_MAX_DATA_CB && ValidTable(Live())
    }

    ghost function Live(): seq<Process>
      requires numCb <= process.Length
      reads this, process
    {
      process[..numCb]
    }

    constructor ()
      ensures Valid() && Live() == [] && fresh(process)
    {
      numCb := 0;
      process := new Process[INV_MAX_DATA_CB](_ => Process(0, 0, 0));
    }

    /** `inv_register_data_cb`. */
    method RegisterDataCb(func: nat, priority: int, sensorType: bv32) returns (result: Error)
      requires Valid()
      modifies this, process
      ensures Valid()
      ensures var r := Register(old(Live()), Process(func, priority, sensorType));
        result == r.result && Live() == r.table
    {
      ghost var t, p := Live(), Process(func, priority, sensorType);
      RegisterKeepsValid(t, p);
      var taken := Taken(func, priority);
      if taken {
        return InvalidParameter;
      }
      if numCb > INV_MAX_DATA_CB - 1 {
        return MemoryExhausted;
      }
      InsertNew(func, priority, sensorType);
      result := Success;
    }

    /** The loop that looks for the function or the priority. */
    method Taken(func: nat, priority: int) returns (taken: bool)
      requires numCb <= process.Length
      ensures taken == Clashes(Live(), func, priority)
    {
      for kk := 0 to numCb
        invariant forall i: nat :: i < kk ==> process[i].func != func && process[i].priority != priority
      {
        if process[kk].func == func || process[kk].priority == priority {
          assert Live()[kk] == process[kk];
          return true;
        }
      }
      taken := false;
    }

    method InsertNew(func: nat, priority: int, sensorType: bv32)
      requires numCb < process.Length
      modifies this, process
      ensures numCb == old(numCb) + 1
      ensures Live() == Insert(old(Live()), Process(func, priority, sensorType))
    {
      ghost var t := Live();
      var kk := 0;
      while kk < numCb && process[kk].priority < priority
        invariant 0 <= kk <= numCb
        invariant forall i: nat :: i < kk ==> t[i].priority < priority
      {
        kk := kk + 1;
      }
      PositionIs(t, priority, kk);
      InsertAt(kk, Process(func, priority, sensorType));
    }

    /** Moves the entries from `kk` on up by one and fills the gap. */
    method InsertAt(kk: nat, p: Process)
      requires kk <= numCb < process.Length
      modifies this, process
      ensures numCb == old(numCb) + 1
      ensures Live() == old(Live())[..kk] + [p] + old(Live())[kk..]
    {
      ghost var was := process[..];
      var nn := numCb;
      while nn > kk
        invariant kk <= nn <= numCb == old(numCb)
        invariant forall i: nat :: i <= nn && i < numCb ==> process[i] == was[i]
        invariant forall i: nat :: nn < i <= numCb ==> process[i] == was[i - 1]
      {
        process[nn] := process[nn - 1];
        nn := nn - 1;
      }
      process[kk] := p;
      numCb := numCb + 1;
      assert was[..numCb - 1] == old(Live());
      Inserted(was, process[..], kk, numCb - 1, p);
      assert process[..][..numCb] == Live();
    }

    /** `inv_unregister_data_cb`, which reports success even when there is nothing to do. */
    method UnregisterDataCb(func: nat) returns (result: Error)
      requires Valid()
      modifies this, process
      ensures Valid() && result == Success && Live() == Delete(old(Live()), func)
    {
      DeleteKeepsValid(Live(), func);
      var kk := Seek(func);
      if kk < numCb {
        RemoveAt(kk);
      }
      result := Success;
    }

    /** The loop that looks for the function. */
    method Seek(func: nat) returns (kk: nat)
      requires numCb <= process.Length
      ensures kk == Find(Live(), func)
    {
      kk := 0;
      while kk < numCb && process[kk].func != func
        invariant kk <= numCb
        invariant forall i: nat :: i < kk ==> Live()[i].func != func
      {
        kk := kk + 1;
      }
      FindIs(Live(), func, kk);
    }

    /** Moves the entries after `kk` down by one. */
    method RemoveAt(kk: nat)
      requires kk < numCb <= process.Length
      modifies this, process
      ensures numCb == old(numCb) - 1
      ensures Live() == old(Live())[..kk] + old(Live())[kk + 1..]
    {
      ghost var was := process[..];
      var nn := kk + 1;
      while nn < numCb
        invariant kk < nn <= numCb == old(numCb)
        invariant forall i: nat :: i < kk || nn - 1 <= i < numCb ==> process[i] == was[i]
        invariant forall i: nat :: kk <= i < nn - 1 ==> process[i] == was[i + 1]
      {
        process[nn - 1] := process[nn];
        nn := nn + 1;
      }
      numCb := numCb - 1;
      assert was[..numCb + 1] == old(Live());
      Removed(was, process[..], kk, numCb + 1);
      assert process[..][..numCb] == Live();
    }
  }

  lemma Inserted(was: seq<Process>, now: seq<Process>, kk: nat, n: nat, p: Process)
    requires kk <= n < |was| == |now| && now[kk] == p
    requires forall i: nat :: i < kk ==> now[i] == was[i]
    requires forall i: nat :: kk < i <= n ==> now[i] == was[i - 1]
    ensures now[..n + 1] == was[..n][..kk] + [p] + was[..n][kk..]
  {
  }

  lemma Removed(was: seq<Process>, now: seq<Process>, kk: nat, n: nat)
    requires kk < n <= |was| == |now|
    requires forall i: nat :: i < kk ==> now[i] == was[i]
    requires forall i: nat :: kk <= i < n - 1 ==> now[i] == was[i + 1]
    ensures now[..n - 1] == was[..n][..kk] + was[..n][kk + 1..]
  {
  }

  lemma PositionIs(t: seq<Process>, priority: int, k: nat)
    requires k <= |t| && (k < |t| ==> t[k].priority >= priority)
    requires forall i: nat :: i < k ==> t[i].priority < priority
    ensures Position(t, priority) == k
  {
  }

  lemma FindIs(t: seq<Process>, func: nat, k: nat)
    requires k <= |t| && (k < |t| ==> t[k].func == func)
    requires forall i: nat :: i < k ==> t[i].func != func
    ensures Find(t, func) == k
  {
  }
}
