// The binding tests.  Every test case connects, for each of the three
// target families (free functions, function objects, member functions
// on `a`), first the target whose signature is the signal's own, then
// `Bind` adapters around each target of the family, each bound to the
// same argument; it fires once and checks the eighteen hit counters.
// `TestSlots` builds that sequence of slots, `TestSlotsCount` proves
// what the counters must then read, and one method per test case runs
// it and states the test's expectations as postconditions.

module BindScenarios {
  import opened Signals

  /** One family's six counters: arity 0, 1, 2 returning `void`, then arity 0, 1, 2 returning `int`. */
  function FamilyCounters(f: Family): seq<Counter> {
    [Counter(f, 0, Void), Counter(f, 1, Void), Counter(f, 2, Void),
     Counter(f, 0, IntRet), Counter(f, 1, IntRet), Counter(f, 2, IntRet)]
  }

  /** The eighteen global counters in the order every test checks them. */
  const AllCounters: seq<Counter> := FamilyCounters(Fun) + FamilyCounters(Cal) + FamilyCounters(Mem)

  /**
   * The binds of one family's targets returning `ret`, from arity `lo`
   * up to 2, every parameter bound to `arg` (`Bind<void>(&f1, 5)`,
   * `Bind(&T3::method2, &a, Ref(n), Ref(n))`, ...).
   */
  function BindRun(k: Kind, ret: Ret, declared: Ret, arg: Arg, lo: nat): (r: seq<Slot>)
    requires lo <= 1 && (declared == IntRet ==> ret == IntRet)
    ensures |r| == 3 - lo
  {
    (if lo == 0 then [Bind(Target(k, 0, ret), declared, [])] else [])
    + [Bind(Target(k, 1, ret), declared, [arg]), Bind(Target(k, 2, ret), declared, [arg, arg])]
  }

  /**
   * One family's share of a test: the direct connection, then the binds.
   * On a `void` signal the free functions and function objects are bound
   * with `Bind<void>`, while the member functions are bound with a plain
   * `Bind`, which keeps their own return type.
   */
  function FamilySlots(k: Kind, arity: nat, ret: Ret, arg: Arg, lo: nat): (r: seq<Slot>)
    requires lo <= 1
    ensures |r| == 1 + (if ret == Void then 2 else 1) * (3 - lo)
  {
    [Direct(Target(k, arity, ret))]
    + if ret == Void then BindRun(k, Void, Void, arg, lo) + BindRun(k, IntRet, if k.Member? then IntRet else Void, arg, lo)
      else BindRun(k, IntRet, IntRet, arg, lo)
  }

  /** Everything a test connects, in the test's order. */
  function TestSlots(a: Receiver, arity: nat, ret: Ret, arg: Arg, lo: nat): seq<Slot>
    requires lo <= 1
  {
    FamilySlots(Function, arity, ret, arg, lo) + FamilySlots(Functor, arity, ret, arg, lo)
    + FamilySlots(Member(a), arity, ret, arg, lo)
  }

  /**
   * What a test expects of counter `c`: one hit from the direct
   * connection when `c` counts the signal's own signature, and one from
   * the binds when `c` counts a bound target.
   */
  function ExpectedHits(c: Counter, arity: nat, ret: Ret, lo: nat): nat {
    (if c.arity == arity && c.ret == ret then 1 else 0)
    + (if lo <= c.arity <= 2 && (ret == IntRet ==> c.ret == IntRet) then 1 else 0)
  }

  /** What a test expects of one family's six counters, in the order every test checks them. */
  function ExpectedRow(arity: nat, ret: Ret, lo: nat): seq<nat> {
    [ExpectedHits(Counter(Fun, 0, Void), arity, ret, lo), ExpectedHits(Counter(Fun, 1, Void), arity, ret, lo),
     ExpectedHits(Counter(Fun, 2, Void), arity, ret, lo), ExpectedHits(Counter(Fun, 0, IntRet), arity, ret, lo),
     ExpectedHits(Counter(Fun, 1, IntRet), arity, ret, lo), ExpectedHits(Counter(Fun, 2, IntRet), arity, ret, lo)]
  }

  /** The eighteen expected counts are one row per family, the same for all three. */
  lemma CountsByFamily(counts: seq<nat>, arity: nat, ret: Ret, lo: nat)
    requires |counts| == 18 && forall k :: 0 <= k < 18 ==> counts[k] == ExpectedHits(AllCounters[k], arity, ret, lo)
    ensures counts == ExpectedRow(arity, ret, lo) + ExpectedRow(arity, ret, lo) + ExpectedRow(arity, ret, lo)
  {
    var row := ExpectedRow(arity, ret, lo);
    forall k | 0 <= k < 18 ensures counts[k] == (row + row + row)[k] {
      var f := if k < 6 then Fun else if k < 12 then Cal else Mem;
      var i := if k < 6 then k else if k < 12 then k - 6 else k - 12;
      assert AllCounters[k] == FamilyCounters(f)[i];
      assert (row + row + row)[k] == row[i];
      assert row[i] == ExpectedHits(FamilyCounters(Fun)[i], arity, ret, lo);
    }
  }

  lemma BindRunCount(k: Kind, ret: Ret, declared: Ret, arg: Arg, lo: nat, c: Counter)
    requires lo <= 1 && (declared == IntRet ==> ret == IntRet)
    ensures CountFor(BindRun(k, ret, declared, arg, lo), c) ==
              if c.family == FamilyOf(k) && c.ret == ret && lo <= c.arity <= 2 then 1 else 0
  {
    var head: seq<Slot> := if lo == 0 then [Bind(Target(k, 0, ret), declared, [])] else [];
    var one := Bind(Target(k, 1, ret), declared, [arg]);
    var two := Bind(Target(k, 2, ret), declared, [arg, arg]);
    CountForConcat(head, [one, two], c);
    CountForAppend([one], two, c);
    assert [one] + [two] == [one, two];
    CountForAppend([], one, c);
    assert [] + [one] == [one];
    if lo == 0 {
      CountForAppend([], head[0], c);
      assert [] + [head[0]] == head;
    }
  }

  lemma FamilySlotsCount(k: Kind, arity: nat, ret: Ret, arg: Arg, lo: nat, c: Counter)
    requires lo <= 1
    ensures CountFor(FamilySlots(k, arity, ret, arg, lo), c) ==
              if c.family == FamilyOf(k) then ExpectedHits(c, arity, ret, lo) else 0
  {
    var direct := Direct(Target(k, arity, ret));
    CountForAppend([], direct, c);
    assert [] + [direct] == [direct];
    if ret == Void {
      var d := if k.Member? then IntRet else Void;
      BindRunCount(k, Void, Void, arg, lo, c);
      BindRunCount(k, IntRet, d, arg, lo, c);
      CountForConcat(BindRun(k, Void, Void, arg, lo), BindRun(k, IntRet, d, arg, lo), c);
      CountForConcat([direct], BindRun(k, Void, Void, arg, lo) + BindRun(k, IntRet, d, arg, lo), c);
    } else {
      BindRunCount(k, IntRet, IntRet, arg, lo, c);
      CountForConcat([direct], BindRun(k, IntRet, IntRet, arg, lo), c);
    }
  }

  /** The hit counts of every binding test: each counter reads exactly `ExpectedHits`. */
  lemma TestSlotsCount(a: Receiver, arity: nat, ret: Ret, arg: Arg, lo: nat, c: Counter)
    requires lo <= 1
    ensures CountFor(TestSlots(a, arity, ret, arg, lo), c) == ExpectedHits(c, arity, ret, lo)
  {
    var fun := FamilySlots(Function, arity, ret, arg, lo);
    var cal := FamilySlots(Functor, arity, ret, arg, lo);
    var mem := FamilySlots(Member(a), arity, ret, arg, lo);
    FamilySlotsCount(Function, arity, ret, arg, lo, c);
    FamilySlotsCount(Functor, arity, ret, arg, lo, c);
    FamilySlotsCount(Member(a), arity, ret, arg, lo, c);
    CountForConcat(fun, cal, c);
    CountForConcat(fun + cal, mem, c);
  }

  /** The binds of a run fit a signal of any arity whose return type they provide, and hand on only `arg`. */
  lemma BindRunFit(k: Kind, ret: Ret, declared: Ret, arg: Arg, lo: nat, arity: nat, sret: Ret, callArgs: seq<Arg>)
    requires lo <= 1 && (declared == IntRet ==> ret == IntRet) && (sret == IntRet ==> declared == IntRet)
    ensures forall s :: s in BindRun(k, ret, declared, arg, lo) ==>
              Connectable(s, arity, sret) && forall x :: x in Delivered(s, callArgs) ==> x == arg
  {
  }

  lemma FamilySlotsFit(k: Kind, arity: nat, ret: Ret, arg: Arg, lo: nat, callArgs: seq<Arg>)
    requires lo <= 1 && forall x :: x in callArgs ==> x == arg
    ensures forall s :: s in FamilySlots(k, arity, ret, arg, lo) ==>
              Connectable(s, arity, ret) && forall x :: x in Delivered(s, callArgs) ==> x == arg
  {
    if ret == Void {
      BindRunFit(k, Void, Void, arg, lo, arity, ret, callArgs);
      BindRunFit(k, IntRet, if k.Member? then IntRet else Void, arg, lo, arity, ret, callArgs);
    } else {
      BindRunFit(k, IntRet, IntRet, arg, lo, arity, ret, callArgs);
    }
  }

  /** Every slot of a test fits its signal, and hands its target nothing but `arg`. */
  lemma TestSlotsFit(a: Receiver, arity: nat, ret: Ret, arg: Arg, lo: nat, callArgs: seq<Arg>)
    requires lo <= 1 && forall x :: x in callArgs ==> x == arg
    ensures forall s :: s in TestSlots(a, arity, ret, arg, lo) ==>
              Connectable(s, arity, ret) && forall x :: x in Delivered(s, callArgs) ==> x == arg
  {
    FamilySlotsFit(Function, arity, ret, arg, lo, callArgs);
    FamilySlotsFit(Functor, arity, ret, arg, lo, callArgs);
    FamilySlotsFit(Member(a), arity, ret, arg, lo, callArgs);
  }

  /** When every slot hands on only `w`, every target of the firing sees only `w`'s value. */
  lemma CallsSee(slots: seq<Slot>, callArgs: seq<Arg>, w: Arg)
    requires forall s :: s in slots ==> forall x :: x in Delivered(s, callArgs) ==> x == w
    ensures forall k, j :: 0 <= k < |Calls(slots, callArgs)| && 0 <= j < |Calls(slots, callArgs)[k].args| ==>
              Calls(slots, callArgs)[k].args[j] == ValueOf(w)
  {
    CallsInOrder(slots, callArgs);
    forall k, j | 0 <= k < |slots| && 0 <= j < |Calls(slots, callArgs)[k].args|
      ensures Calls(slots, callArgs)[k].args[j] == ValueOf(w)
    {
      assert slots[k] in slots;
      assert Delivered(slots[k], callArgs)[j] in Delivered(slots[k], callArgs);
    }
  }

  /** The arguments the adapters among `slots` hold, in connection order. */
  function BoundArgs(slots: seq<Slot>): seq<Arg> {
    if slots == [] then [] else (if slots[0].Adapter? then slots[0].bound else []) + BoundArgs(slots[1..])
  }

  /** When every adapter holds only `w`, so do all of them together. */
  lemma {:induction false} BoundArgsAre(slots: seq<Slot>, w: Arg)
    requires forall s :: s in slots ==> forall x :: x in Delivered(s, []) ==> x == w
    ensures forall x :: x in BoundArgs(slots) ==> x == w
  {
    if slots != [] {
      BoundArgsAre(slots[1..], w);
      assert slots[0] in slots;
      assert slots[0].Adapter? ==> Delivered(slots[0], []) == slots[0].bound;
    }
  }

  /** The test body's run of `connect` calls. */
  method ConnectAll(s: Signal, slots: seq<Slot>)
    requires s.Valid() && forall x :: x in slots ==> Connectable(x, s.arity, s.ret)
    modifies s
    ensures s.Valid() && s.slots == old(s.slots) + slots
  {
    for i := 0 to |slots|
      invariant s.Valid() && s.slots == old(s.slots) + slots[..i]
    {
      assert slots[i] in slots;
      s.Connect(slots[i]);
      assert slots[..i + 1] == slots[..i] + [slots[i]];
    }
  }

  /** Connects `slots` to a fresh signal, fires it once and hands back the counters and the calls. */
  method ConnectAndFire(arity: nat, ret: Ret, slots: seq<Slot>, callArgs: seq<Arg>) returns (hits: Hits, log: seq<Call>)
    requires arity <= 2 && |callArgs| == arity
    requires forall x :: x in slots ==> Connectable(x, arity, ret)
    ensures forall c :: hits.Get(c) == CountFor(slots, c)
    ensures log == Calls(slots, callArgs)
  {
    var s := new Signal(arity, ret);
    ConnectAll(s, slots);
    assert s.slots == slots;
    hits := new Hits();
    log := s.Fire(callArgs, hits);
  }

  /**
   * A test body: connect `TestSlots` to a fresh signal, fire it once with
   * `arg` for every parameter, and read the eighteen counters.
   */
  method Run(a: Receiver, arity: nat, ret: Ret, arg: Arg, lo: nat) returns (counts: seq<nat>, log: seq<Call>)
    requires arity <= 2 && lo <= 1
    ensures |counts| == 18 && forall k :: 0 <= k < 18 ==> counts[k] == ExpectedHits(AllCounters[k], arity, ret, lo)
    ensures |log| == |TestSlots(a, arity, ret, arg, lo)| == 3 * (1 + (if ret == Void then 2 else 1) * (3 - lo))
    ensures forall k, j :: 0 <= k < |log| && 0 <= j < |log[k].args| ==> log[k].args[j] == ValueOf(arg)
  {
    var slots := TestSlots(a, arity, ret, arg, lo);
    var callArgs := seq(arity, _ => arg);
    TestSlotsFit(a, arity, ret, arg, lo, callArgs);
    var hits;
    hits, log := ConnectAndFire(arity, ret, slots, callArgs);
    CallsInOrder(slots, callArgs);
    CallsSee(slots, callArgs, arg);
    forall c ensures hits.Get(c) == ExpectedHits(c, arity, ret, lo) {
      TestSlotsCount(a, arity, ret, arg, lo, c);
    }
    counts := hits.Read(AllCounters);
  }

  /** TEST_F(BindTest, test0_void). */
  method Test0Void() returns (counts: seq<nat>, log: seq<Call>)
    ensures counts == [2, 1, 1, 1, 1, 1, 2, 1, 1, 1, 1, 1, 2, 1, 1, 1, 1, 1]
    ensures |log| == 21 && forall k, j :: 0 <= k < |log| && 0 <= j < |log[k].args| ==> log[k].args[j] == 5
  {
    var a := new Receiver();
    counts, log := Run(a, 0, Void, Lit(5), 0);
    CountsByFamily(counts, 0, Void, 0);
  }

  /** TEST_F(BindTest, test0_int). */
  method Test0Int() returns (counts: seq<nat>, log: seq<Call>)
    ensures counts == [0, 0, 0, 2, 1, 1, 0, 0, 0, 2, 1, 1, 0, 0, 0, 2, 1, 1]
    ensures |log| == 12 && forall k, j :: 0 <= k < |log| && 0 <= j < |log[k].args| ==> log[k].args[j] == 5
  {
    var a := new Receiver();
    counts, log := Run(a, 0, IntRet, Lit(5), 0);
    CountsByFamily(counts, 0, IntRet, 0);
  }

  /** TEST_F(BindTest, test1_void). */
  method Test1Void() returns (counts: seq<nat>, log: seq<Call>)
    ensures counts == [1, 2, 1, 1, 1, 1, 1, 2, 1, 1, 1, 1, 1, 2, 1, 1, 1, 1]
    ensures |log| == 21 && forall k, j :: 0 <= k < |log| && 0 <= j < |log[k].args| ==> log[k].args[j] == 5
  {
    var a := new Receiver();
    counts, log := Run(a, 1, Void, Lit(5), 0);
    CountsByFamily(counts, 1, Void, 0);
  }

  /** TEST_F(BindTest, test1_int). */
  method Test1Int() returns (counts: seq<nat>, log: seq<Call>)
    ensures counts == [0, 0, 0, 1, 2, 1, 0, 0, 0, 1, 2, 1, 0, 0, 0, 1, 2, 1]
    ensures |log| == 12 && forall k, j :: 0 <= k < |log| && 0 <= j < |log[k].args| ==> log[k].args[j] == 5
  {
    var a := new Receiver();
    counts, log := Run(a, 1, IntRet, Lit(5), 0);
    CountsByFamily(counts, 1, IntRet, 0);
  }

  /** TEST_F(BindTest, test2_void). */
  method Test2Void() returns (counts: seq<nat>, log: seq<Call>)
    ensures counts == [1, 1, 2, 1, 1, 1, 1, 1, 2, 1, 1, 1, 1, 1, 2, 1, 1, 1]
    ensures |log| == 21 && forall k, j :: 0 <= k < |log| && 0 <= j < |log[k].args| ==> log[k].args[j] == 5
  {
    var a := new Receiver();
    counts, log := Run(a, 2, Void, Lit(5), 0);
    CountsByFamily(counts, 2, Void, 0);
  }

  /** TEST_F(BindTest, test2_int). */
  method Test2Int() returns (counts: seq<nat>, log: seq<Call>)
    ensures counts == [0, 0, 0, 1, 1, 2, 0, 0, 0, 1, 1, 2, 0, 0, 0, 1, 1, 2]
    ensures |log| == 12 && forall k, j :: 0 <= k < |log| && 0 <= j < |log[k].args| ==> log[k].args[j] == 5
  {
    var a := new Receiver();
    counts, log := Run(a, 2, IntRet, Lit(5), 0);
    CountsByFamily(counts, 2, IntRet, 0);
  }

  /**
   * Storing the arguments of every adapter among `slots` as `Ref(n)`:
   * the adapters then hold exactly what was stored, and nothing is
   * constructed or copied.
   */
  method BindByRef(n: Int, slots: seq<Slot>, tally: Tally) returns (held: seq<Arg>)
    requires forall s :: s in slots ==> forall x :: x in Delivered(s, []) ==> x == Obj(n)
    modifies tally
    ensures held == BoundArgs(slots)
    ensures tally.ctorHits == old(tally.ctorHits) && tally.copyCtorHits == old(tally.copyCtorHits)
  {
    held := HoldAll(ByRef(n), |BoundArgs(slots)|, tally);
    BoundArgsAre(slots, Obj(n));
    forall i | 0 <= i < |held| ensures held[i] == BoundArgs(slots)[i] {
      assert BoundArgs(slots)[i] in BoundArgs(slots);
    }
  }

  /**
   * A RefTest body: one `Int n(5)` is constructed, every argument the
   * adapters bind is stored as `Ref(n)`, and the signal is fired with
   * `n` passed by reference.
   */
  method RefRun(arity: nat, ret: Ret) returns (counts: seq<nat>, log: seq<Call>, ctors: nat, copies: nat)
    requires 1 <= arity <= 2
    ensures |counts| == 18 && forall k :: 0 <= k < 18 ==> counts[k] == ExpectedHits(AllCounters[k], arity, ret, 1)
    ensures |log| == 3 * (1 + (if ret == Void then 2 else 1) * 2)
    ensures forall k, j :: 0 <= k < |log| && 0 <= j < |log[k].args| ==> log[k].args[j] == 5
    ensures ctors == 1 && copies == 0
  {
    var tally := new Tally();
    var n := new Int(5, tally);
    var a := new Receiver();
    TestSlotsFit(a, arity, ret, Obj(n), 1, []);
    var held := BindByRef(n, TestSlots(a, arity, ret, Obj(n), 1), tally);
    counts, log := Run(a, arity, ret, Obj(n), 1);
    ctors, copies := tally.ctorHits, tally.copyCtorHits;
  }

  /** TEST_F(RefTest, test1_void). */
  method RefTest1Void() returns (counts: seq<nat>, log: seq<Call>, ctors: nat, copies: nat)
    ensures counts == [0, 2, 1, 0, 1, 1, 0, 2, 1, 0, 1, 1, 0, 2, 1, 0, 1, 1]
    ensures |log| == 15 && forall k, j :: 0 <= k < |log| && 0 <= j < |log[k].args| ==> log[k].args[j] == 5
    ensures ctors == 1 && copies == 0
  {
    counts, log, ctors, copies := RefRun(1, Void);
    CountsByFamily(counts, 1, Void, 1);
  }

  /** TEST_F(RefTest, test1_int). */
  method RefTest1Int() returns (counts: seq<nat>, log: seq<Call>, ctors: nat, copies: nat)
    ensures counts == [0, 0, 0, 0, 2, 1, 0, 0, 0, 0, 2, 1, 0, 0, 0, 0, 2, 1]
    ensures |log| == 9 && forall k, j :: 0 <= k < |log| && 0 <= j < |log[k].args| ==> log[k].args[j] == 5
    ensures ctors == 1 && copies == 0
  {
    counts, log, ctors, copies := RefRun(1, IntRet);
    CountsByFamily(counts, 1, IntRet, 1);
  }

  /** TEST_F(RefTest, test2_void). */
  method RefTest2Void() returns (counts: seq<nat>, log: seq<Call>, ctors: nat, copies: nat)
    ensures counts == [0, 1, 2, 0, 1, 1, 0, 1, 2, 0, 1, 1, 0, 1, 2, 0, 1, 1]
    ensures |log| == 15 && forall k, j :: 0 <= k < |log| && 0 <= j < |log[k].args| ==> log[k].args[j] == 5
    ensures ctors == 1 && copies == 0
  {
    counts, log, ctors, copies := RefRun(2, Void);
    CountsByFamily(counts, 2, Void, 1);
  }

  /** TEST_F(RefTest, test2_int). */
  method RefTest2Int() returns (counts: seq<nat>, log: seq<Call>, ctors: nat, copies: nat)
    ensures counts == [0, 0, 0, 0, 1, 2, 0, 0, 0, 0, 1, 2, 0, 0, 0, 0, 1, 2]
    ensures |log| == 9 && forall k, j :: 0 <= k < |log| && 0 <= j < |log[k].args| ==> log[k].args[j] == 5
    ensures ctors == 1 && copies == 0
  {
    counts, log, ctors, copies := RefRun(2, IntRet);
    CountsByFamily(counts, 2, IntRet, 1);
  }
}
