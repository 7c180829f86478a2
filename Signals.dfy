// The signal/slot dispatch and the Bind adapters, as the binding tests
// pin them down: a signal is an ordered list of slots; a slot is either
// a direct connection, which receives the call-time arguments, or a
// Bind adapter that carries every argument of its target and ignores
// the call-time arguments.  Each target of the tests bumps one global
// hit counter; firing a signal bumps the counters of its slots' targets.

module Signals {
  import opened Wrappers

  /** What a target returns: `void` or `int`. */
  datatype Ret = Void | IntRet

  /** The receiving object of a member-function target (the tests' `T3 a`). */
  class Receiver {
    constructor () { }
  }

  /** How a target is reached: a free function, a function object, or a member function on an instance. */
  datatype Kind = Function | Functor | Member(instance: Receiver)

  /** Which family of global hit counters a target bumps: `...fun_hits`, `...cal_hits`, `...mem_hits`. */
  datatype Family = Fun | Cal | Mem

  /** The counter family that a target reached this way bumps. */
  function FamilyOf(k: Kind): Family {
    match k
    case Function => Fun
    case Functor => Cal
    case Member(_) => Mem
  }

  /** One global hit counter, such as `int1cal_hits`: family, arity and return type of its target. */
  datatype Counter = Counter(family: Family, arity: nat, ret: Ret)

  /**
   * A callable of the tests, such as `f1`, `T2_int()` or `&T3::method0`
   * on `&a`: how it is reached, how many arguments it takes and what it
   * returns.
   */
  datatype Target = Target(kind: Kind, arity: nat, ret: Ret) {
    /** The counter that the target's body increments. */
    function HitCounter(): Counter {
      Counter(FamilyOf(kind), arity, ret)
    }
  }

  /** Counts constructions and copy-constructions of `Int` (the tests' `ctor_hits`, `copy_ctor_hits`). */
  class Tally {
    var ctorHits: nat
    var copyCtorHits: nat

    constructor ()
      ensures ctorHits == 0 && copyCtorHits == 0
    {
      ctorHits, copyCtorHits := 0, 0;
    }
  }

  /** The tests' instrumented `Int`: a heap object with an identity and a value. */
  class Int {
    var value: int

    constructor (v: int, tally: Tally)
      modifies tally
      ensures value == v
      ensures tally.ctorHits == old(tally.ctorHits) + 1
      ensures tally.copyCtorHits == old(tally.copyCtorHits)
    {
      value := v;
      tally.ctorHits := tally.ctorHits + 1;
    }

    /** The copy constructor `Int(const Int&)`. */
    constructor Copy(from: Int, tally: Tally)
      modifies tally
      ensures value == from.value
      ensures tally.copyCtorHits == old(tally.copyCtorHits) + 1
      ensures tally.ctorHits == old(tally.ctorHits)
    {
      value := from.value;
      tally.copyCtorHits := tally.copyCtorHits + 1;
    }
  }

  /**
   * An argument as a slot holds it or a signal passes it: a plain `int`,
   * or an `Int` object reached through a reference (a `const Int&`
   * parameter or a bound `Ref(n)`), which is read when the target runs.
   */
  datatype Arg = Lit(v: int) | Obj(o: Int)

  /**
   * A connected slot.  `Direct` is `connect(&f)`, `connect(T())` or
   * `connect(&T3::m, &a)`; `Adapter` is `connect(Bind<declared>(target, bound...))`.
   */
  datatype Slot = Direct(target: Target) | Adapter(target: Target, declared: Ret, bound: seq<Arg>)

  /**
   * What the compiler accepts on a signal of this arity and return type:
   * a direct target must match the signal's signature; an adapter must
   * bind all of its target's arguments, may declare `void` around an
   * int-returning target, and on a `void` signal may return anything
   * (the result is dropped).
   */
  predicate Connectable(s: Slot, arity: nat, ret: Ret) {
    match s
    case Direct(t) => t.arity == arity && t.ret == ret
    case Adapter(t, declared, bound) =>
      |bound| == t.arity && (declared == IntRet ==> t.ret == IntRet) && (ret == IntRet ==> declared == IntRet)
  }

  function ObjectsOf(args: seq<Arg>): set<Int> {
    set a | a in args && a.Obj? :: a.o
  }

  function BoundObjects(slots: seq<Slot>): set<Int> {
    set s, a | s in slots && s.Adapter? && a in s.bound && a.Obj? :: a.o
  }

  /** The value a target sees for an argument: an object is read at call time, never copied. */
  function ValueOf(a: Arg): int
    reads if a.Obj? then {a.o} else {}
  {
    match a
    case Lit(v) => v
    case Obj(o) => o.value
  }

  function Values(args: seq<Arg>): (vs: seq<int>)
    reads ObjectsOf(args)
    ensures |vs| == |args|
    ensures forall i :: 0 <= i < |args| ==> vs[i] == ValueOf(args[i])
  {
    if args == [] then [] else [ValueOf(args[0])] + Values(args[1..])
  }

  /** What the tests' int-returning targets return: free functions 0, the others 0, `a` or `a+b`. */
  function TargetResult(t: Target, vs: seq<int>): int {
    if t.kind.Function? || |vs| == 0 then 0
    else if |vs| == 1 then vs[0]
    else vs[0] + vs[1]
  }

  /** One invocation of a target: with which values, and what the slot hands back (`None` for void). */
  datatype Call = Call(target: Target, args: seq<int>, result: Option<int>)

  /** The arguments a slot passes on: a direct slot the call-time ones, an adapter its bound ones. */
  function Delivered(s: Slot, callArgs: seq<Arg>): seq<Arg> {
    match s
    case Direct(_) => callArgs
    case Adapter(_, _, bound) => bound
  }

  /** Running one slot with the signal's call-time arguments. */
  function Invoke(s: Slot, callArgs: seq<Arg>): (c: Call)
    reads ObjectsOf(callArgs), BoundObjects([s])
  {
    assert forall a :: a in Delivered(s, callArgs) && a.Obj? ==> a.o in ObjectsOf(callArgs) + BoundObjects([s]);
    var vs := Values(Delivered(s, callArgs));
    var declared := match s case Direct(t) => t.ret case Adapter(_, d, _) => d;
    Call(s.target, vs, if declared == Void then None else Some(TargetResult(s.target, vs)))
  }

  /** One firing: every slot once, in connection order. */
  function Calls(slots: seq<Slot>, callArgs: seq<Arg>): seq<Call>
    reads ObjectsOf(callArgs), BoundObjects(slots)
  {
    if slots == [] then []
    else
      assert BoundObjects([slots[|slots| - 1]]) <= BoundObjects(slots);
      assert BoundObjects(slots[..|slots| - 1]) <= BoundObjects(slots);
      Calls(slots[..|slots| - 1], callArgs) + [Invoke(slots[|slots| - 1], callArgs)]
  }

  /** How many slots have a target that bumps counter `c`. */
  function CountFor(slots: seq<Slot>, c: Counter): nat {
    if slots == [] then 0
    else CountFor(slots[..|slots| - 1], c) + (if slots[|slots| - 1].target.HitCounter() == c then 1 else 0)
  }

  /** Firing yields exactly one call per slot, the i-th call being the i-th slot's. */
  lemma {:induction false} CallsInOrder(slots: seq<Slot>, callArgs: seq<Arg>)
    ensures |Calls(slots, callArgs)| == |slots|
    ensures forall i :: 0 <= i < |slots| ==> Calls(slots, callArgs)[i] == Invoke(slots[i], callArgs)
  {
    if slots != [] {
      var init := slots[..|slots| - 1];
      CallsInOrder(init, callArgs);
      forall i | 0 <= i < |init| ensures init[i] == slots[i] { }
    }
  }

  /** A target's hit count after one firing is the number of its slots (direct and adapter alike). */
  lemma {:induction false} CountForIsSlotCount(slots: seq<Slot>, c: Counter)
    ensures CountFor(slots, c) == |set i | 0 <= i < |slots| && slots[i].target.HitCounter() == c|
  {
    var S := set i | 0 <= i < |slots| && slots[i].target.HitCounter() == c;
    if slots == [] {
      assert S == {};
    } else {
      var n := |slots| - 1;
      var init := slots[..n];
      CountForIsSlotCount(init, c);
      var S0 := set i | 0 <= i < |init| && init[i].target.HitCounter() == c;
      assert S0 == set i | 0 <= i < n && slots[i].target.HitCounter() == c;
      if slots[n].target.HitCounter() == c {
        assert S == S0 + {n};
      } else {
        assert S == S0;
      }
    }
  }

  /** Connecting one more slot adds one hit for that slot's target and none for any other. */
  lemma CountForAppend(slots: seq<Slot>, s: Slot, c: Counter)
    ensures CountFor(slots + [s], c) == CountFor(slots, c) + (if s.target.HitCounter() == c then 1 else 0)
  {
    assert (slots + [s])[..|slots|] == slots;
  }

  /** Slots connected in two runs are counted run by run. */
  lemma {:induction false} CountForConcat(x: seq<Slot>, y: seq<Slot>, c: Counter)
    ensures CountFor(x + y, c) == CountFor(x, c) + CountFor(y, c)
  {
    if y == [] {
      assert x + y == x;
    } else {
      var init, last := y[..|y| - 1], y[|y| - 1];
      CountForConcat(x, init, c);
      assert x + y == (x + init) + [last];
      CountForAppend(x + init, last, c);
      CountForAppend(init, last, c);
      assert init + [last] == y;
    }
  }

  /**
   * A bound adapter hands its target the bound values whatever the
   * signal passes, and one declared `void` drops the target's result.
   */
  lemma BindIgnoresCallArgs(t: Target, declared: Ret, args: seq<Arg>, a1: seq<Arg>, a2: seq<Arg>)
    requires |args| == t.arity && (declared == IntRet ==> t.ret == IntRet)
    ensures Invoke(Bind(t, declared, args), a1) == Invoke(Bind(t, declared, args), a2)
    ensures Invoke(Bind(t, declared, args), a1).args == Values(args)
    ensures Invoke(Bind(t, declared, args), a1).result.None? <==> declared == Void
  {
  }

  /** A direct connection hands its target the signal's own arguments and passes its result on. */
  lemma DirectReceivesCallArgs(t: Target, callArgs: seq<Arg>)
    ensures Invoke(Direct(t), callArgs).args == Values(callArgs)
    ensures Invoke(Direct(t), callArgs).result.None? <==> t.ret == Void
  {
  }

  /** The global hit counters of the tests, all starting at 0. */
  class Hits {
    var count: map<Counter, nat>

    constructor ()
      ensures forall c :: Get(c) == 0
    {
      count := map[];
    }

    function Get(c: Counter): nat
      reads this
    {
      if c in count then count[c] else 0
    }

    /** The tests' `EXPECT_EQ` reads of the counters `cs`, in order. */
    function Read(cs: seq<Counter>): (r: seq<nat>)
      reads this
      ensures |r| == |cs| && forall i :: 0 <= i < |cs| ==> r[i] == Get(cs[i])
    {
      if cs == [] then [] else [Get(cs[0])] + Read(cs[1..])
    }

    /** `++xxx_hits` in a target's body. */
    method Hit(c: Counter)
      modifies this
      ensures forall d :: Get(d) == old(Get(d)) + (if d == c then 1 else 0)
    {
      count := count[c := Get(c) + 1];
    }
  }

  /** `Signal0<R>`, `Signal1<R, A>`, `Signal2<R, A, B>`: an ordered list of slots. */
  class Signal {
    const arity: nat
    const ret: Ret
    var slots: seq<Slot>

    ghost predicate Valid()
      reads this
    {
      arity <= 2 && forall i :: 0 <= i < |slots| ==> Connectable(slots[i], arity, ret)
    }

    constructor (arity: nat, ret: Ret)
      requires arity <= 2
      ensures Valid() && this.arity == arity && this.ret == ret && slots == []
    {
      this.arity, this.ret := arity, ret;
      slots := [];
    }

    /** `connect`: appends the slot; nothing is deduplicated. */
    method Connect(s: Slot)
      requires Valid() && Connectable(s, arity, ret)
      modifies this
      ensures Valid() && slots == old(slots) + [s]
    {
      slots := slots + [s];
    }

    /**
     * `operator()`: runs every slot once, in connection order, and each
     * run bumps its target's hit counter.  Nothing is constructed or
     * copied: `Int` arguments travel by reference.
     */
    method Fire(callArgs: seq<Arg>, hits: Hits) returns (log: seq<Call>)
      requires Valid() && |callArgs| == arity
      modifies hits
      ensures log == Calls(slots, callArgs)
      ensures forall c :: hits.Get(c) == old(hits.Get(c)) + CountFor(slots, c)
    {
      log := [];
      var i := 0;
      while i < |slots|
        invariant 0 <= i <= |slots|
        invariant log == Calls(slots[..i], callArgs)
        invariant forall c :: hits.Get(c) == old(hits.Get(c)) + CountFor(slots[..i], c)
      {
        assert slots[..i + 1][..i] == slots[..i] && slots[..i + 1][i] == slots[i];
        assert BoundObjects(slots[..i + 1]) <= BoundObjects(slots);
        var call := Invoke(slots[i], callArgs);
        log := log + [call];
        assert log == Calls(slots[..i + 1], callArgs);
        label before:
        hits.Hit(slots[i].target.HitCounter());
        assert unchanged@before(ObjectsOf(callArgs));
        assert unchanged@before(BoundObjects(slots[..i + 1]));
        assert log == Calls(slots[..i + 1], callArgs);
        i := i + 1;
      }
      assert slots[..i] == slots;
    }
  }

  /**
   * `Bind<declared>(target, args...)`: a fully bound adapter.  A plain
   * `int` is stored as is and `Ref(n)` stores the very object `n`
   * (`Obj(n)`), so binding constructs and copies nothing.  The adapter
   * fits a signal of any arity, since it never looks at the call-time
   * arguments.
   */
  function Bind(target: Target, declared: Ret, args: seq<Arg>): (s: Slot)
    requires |args| == target.arity
    requires declared == IntRet ==> target.ret == IntRet
    ensures s.target == target
    ensures forall arity: nat, ret :: (ret == IntRet ==> declared == IntRet) ==> Connectable(s, arity, ret)
  {
    Adapter(target, declared, args)
  }

  /**
   * How `Bind` receives an `Int` argument: by value, which copy-constructs
   * it into the adapter, or as `Ref(n)`, which keeps a reference to `n`.
   */
  datatype Binding = ByValue(n: Int) | ByRef(n: Int)

  /** Storing one bound `Int` argument in an adapter. */
  method Hold(b: Binding, tally: Tally) returns (a: Arg)
    modifies tally
    ensures a.Obj? && a.o.value == b.n.value
    ensures b.ByRef? ==> a == Obj(b.n)
    ensures b.ByValue? ==> fresh(a.o)
    ensures tally.ctorHits == old(tally.ctorHits)
    ensures tally.copyCtorHits == old(tally.copyCtorHits) + (if b.ByValue? then 1 else 0)
  {
    if b.ByValue? {
      var held := new Int.Copy(b.n, tally);
      a := Obj(held);
    } else {
      a := Obj(b.n);
    }
  }

  /**
   * Storing `count` bound arguments the same way: every one holds the
   * value of `b.n`; through `Ref` each is `n` itself and nothing is
   * copied, while by value each is a new copy.
   */
  method HoldAll(b: Binding, count: nat, tally: Tally) returns (args: seq<Arg>)
    modifies tally
    ensures |args| == count
    ensures forall i :: 0 <= i < count ==> args[i].Obj? && args[i].o.value == b.n.value
    ensures b.ByRef? ==> forall i :: 0 <= i < count ==> args[i] == Obj(b.n)
    ensures b.ByValue? ==> forall i :: 0 <= i < count ==> fresh(args[i].o)
    ensures tally.ctorHits == old(tally.ctorHits)
    ensures tally.copyCtorHits == old(tally.copyCtorHits) + (if b.ByValue? then count else 0)
  {
    args := [];
    while |args| < count
      invariant |args| <= count
      invariant forall i :: 0 <= i < |args| ==> args[i].Obj? && args[i].o.value == b.n.value
      invariant b.ByRef? ==> forall i :: 0 <= i < |args| ==> args[i] == Obj(b.n)
      invariant b.ByValue? ==> forall i :: 0 <= i < |args| ==> fresh(args[i].o)
      invariant tally.ctorHits == old(tally.ctorHits)
      invariant tally.copyCtorHits == old(tally.copyCtorHits) + (if b.ByValue? then |args| else 0)
      decreases count - |args|
    {
      var a := Hold(b, tally);
      args := args + [a];
    }
  }
}
