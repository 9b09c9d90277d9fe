/** Owning wrappers around native handles (windows, GL contexts, surfaces).
    An Object is a std::unique_ptr holding the handle and its destroy
    function. makeObject refuses a null handle with a RuntimeException;
    makeNullObject gives the empty placeholder a holder starts with.
    The Engine copy names these makeObject/makeNullObject and reports
    "Error creating Object"; the Draft copy names them make_object and
    null_object and reports "Error creating SDLObject". */
module NativeHandle {
  import opened Common
  import opened RuntimeException

  /** A native pointer: null, or the address of a live native resource. */
  datatype Ptr = Null | Addr(address: nat)

  /** A destroy function (SDL_DestroyWindow, SDL_GL_DeleteContext, ...)
      identified by name, or the empty lambda of the null object. */
  datatype Deleter = NoOp | Destroy(name: string)

  /** std::unique_ptr<T, void(*)(T*)>: the held pointer and its deleter. */
  datatype Object = Object(ptr: Ptr, deleter: Deleter)

  function CreationMessage(build: Build): string {
    match build
    case Engine => "Error creating Object"
    case Draft => "Error creating SDLObject"
  }

  /** makeObject(instance, destroy). `lastError` is what SDL_GetError()
      answers at the moment of the check. */
  function MakeObject(build: Build, instance: Ptr, destroy: Deleter, lastError: string)
    : (r: Result<Object, RuntimeError>)
    ensures r.Err? <==> instance == Null
    ensures r.Err? ==> r.error == RuntimeError(CreationMessage(build), lastError)
    ensures r.Ok? ==> r.value.ptr == instance && r.value.deleter == destroy
  {
    if instance == Null then Err(RuntimeError(CreationMessage(build), lastError))
    else Ok(Object(instance, destroy))
  }

  /** makeObject(create, destroy, args...): one call of `create` on the
      arguments, then the instance overload on what it returned. */
  function MakeObjectFrom<A>(build: Build, create: A -> Ptr, destroy: Deleter, args: A, lastError: string)
    : (r: Result<Object, RuntimeError>)
    ensures r == MakeObject(build, create(args), destroy, lastError)
    ensures r.Err? <==> create(args) == Null
  {
    MakeObject(build, create(args), destroy, lastError)
  }

  /** makeNullObject: a null pointer with a deleter that does nothing. */
  function MakeNullObject(): (o: Object)
    ensures o.ptr == Null && o.deleter == NoOp
    ensures Destruct(o) == []
  {
    Object(Null, NoOp)
  }

  // ---------------------------------------------------------------------
  // Ownership. A unique_ptr calls its deleter when it gives up what it
  // holds (destructor, reset, being move-assigned over), and only on a
  // non-null pointer. Moving leaves the source holding null.

  /** The destroy calls a holder makes when it gives up `o`, each recorded
      as the (pointer, deleter) pair the deleter is called with. */
  function Destruct(o: Object): (released: seq<Object>)
    ensures |released| <= 1
    ensures released != [] <==> o.ptr != Null
    ensures released != [] ==> released[0] == o
  {
    if o.ptr != Null then [o] else []
  }

  /** What a program does to its holders (variables and fields of type
      Object), numbered 0 .. n-1. */
  datatype Op =
    | Assign(dst: nat, made: Object)  // dst = makeObject(...)
    | Move(dst: nat, src: nat)        // dst = std::move(src)
    | Reset(slot: nat)                // slot.reset()

  predicate ValidOp(op: Op, n: nat) {
    match op
    case Assign(d, _) => d < n
    case Move(d, s) => d < n && s < n
    case Reset(s) => s < n
  }

  predicate ValidOps(ops: seq<Op>, n: nat) {
    forall k :: 0 <= k < |ops| ==> ValidOp(ops[k], n)
  }

  /** The holders an operation writes to. */
  function Targets(op: Op): set<nat> {
    match op
    case Assign(d, _) => {d}
    case Move(d, s) => {d, s}
    case Reset(s) => {s}
  }

  /** One operation: the holders afterwards and the destroy calls made.
      Only the targeted holders change; the destination's old object is
      released (when non-null) and a moved-from or reset holder is left
      holding null; a self move-assignment changes nothing. */
  function Apply(holders: seq<Object>, op: Op): (r: (seq<Object>, seq<Object>))
    requires ValidOp(op, |holders|)
    ensures |r.0| == |holders|
    ensures forall k :: 0 <= k < |holders| && k !in Targets(op) ==> r.0[k] == holders[k]
    ensures op.Assign? ==> r.0[op.dst] == op.made && r.1 == Destruct(holders[op.dst])
    ensures op.Move? && op.dst != op.src ==>
      && r.0[op.dst] == holders[op.src] && r.0[op.src].ptr == Null
      && r.1 == Destruct(holders[op.dst])
    ensures op.Move? && op.dst == op.src ==> r.0 == holders && r.1 == []
    ensures op.Reset? ==> r.0[op.slot].ptr == Null && r.1 == Destruct(holders[op.slot])
  {
    match op
    case Assign(d, made) =>
      (holders[d := made], Destruct(holders[d]))
    case Move(d, s) =>
      if d == s then (holders, [])  // self move-assignment releases nothing
      else (holders[d := holders[s]][s := Object(Null, holders[s].deleter)], Destruct(holders[d]))
    case Reset(s) =>
      (holders[s := Object(Null, holders[s].deleter)], Destruct(holders[s]))
  }

  /** A run of operations: the final holders and every destroy call, in
      order. Each operation releases at most one object, and never a null one. */
  function Run(holders: seq<Object>, ops: seq<Op>): (r: (seq<Object>, seq<Object>))
    requires ValidOps(ops, |holders|)
    ensures |r.0| == |holders|
    ensures |r.1| <= |ops|
    ensures forall k :: 0 <= k < |r.1| ==> r.1[k].ptr != Null
    decreases |ops|
  {
    if ops == [] then (holders, [])
    else
      var before := Run(holders, ops[..|ops| - 1]);
      var after := Apply(before.0, ops[|ops| - 1]);
      (after.0, before.1 + after.1)
  }

  /** The non-null objects the holders own: what their destructors release. */
  function Live(holders: seq<Object>): seq<Object>
    decreases |holders|
  {
    if holders == [] then []
    else Live(holders[..|holders| - 1]) + Destruct(holders[|holders| - 1])
  }

  /** The non-null objects the operations brought in. */
  function Made(ops: seq<Op>): seq<Object>
    decreases |ops|
  {
    if ops == [] then []
    else
      var last := ops[|ops| - 1];
      Made(ops[..|ops| - 1]) + (if last.Assign? then Destruct(last.made) else [])
  }

  function NullHolders(n: nat): (holders: seq<Object>)
    ensures |holders| == n
    ensures forall k :: 0 <= k < n ==> holders[k] == MakeNullObject()
  {
    seq(n, _ => MakeNullObject())
  }

  lemma {:induction false} LiveUpdate(holders: seq<Object>, i: nat, o: Object)
    requires i < |holders|
    ensures multiset(Live(holders[i := o])) + multiset(Destruct(holders[i]))
         == multiset(Live(holders)) + multiset(Destruct(o))
    decreases |holders|
  {
    var n := |holders|;
    var updated := holders[i := o];
    var pre := holders[..n - 1];
    var last := holders[n - 1];
    assert Live(holders) == Live(pre) + Destruct(last);
    if i == n - 1 {
      assert updated[..n - 1] == pre;
      assert Live(updated) == Live(pre) + Destruct(o);
      SwapLast(multiset(Live(pre)), multiset(Destruct(o)), multiset(Destruct(last)));
    } else {
      assert updated[..n - 1] == pre[i := o];
      assert updated[n - 1] == last;
      assert Live(updated) == Live(pre[i := o]) + Destruct(last);
      LiveUpdate(pre, i, o);
      assert pre[i] == holders[i];
      AddToBoth(multiset(Live(pre[i := o])), multiset(Live(pre)), multiset(Destruct(holders[i])),
                multiset(Destruct(o)), multiset(Destruct(last)));
    }
  }

  lemma SwapLast<T>(base: multiset<T>, added: multiset<T>, removed: multiset<T>)
    ensures (base + added) + removed == (base + removed) + added
  {
  }

  /** A balance stays one when the same objects join both sides. */
  lemma AddToBoth<T>(a: multiset<T>, b: multiset<T>, x: multiset<T>, y: multiset<T>, c: multiset<T>)
    requires a + x == b + y
    ensures (a + c) + x == (b + c) + y
  {
    forall e
      ensures ((a + c) + x)[e] == ((b + c) + y)[e]
    {
      assert (a + x)[e] == (b + y)[e];
    }
  }

  lemma LiveOfNulls(n: nat)
    ensures Live(NullHolders(n)) == []
  {
    if n > 0 {
      assert NullHolders(n)[..n - 1] == NullHolders(n - 1);
      LiveOfNulls(n - 1);
    }
  }

  lemma {:induction false} LiveAreNonNull(holders: seq<Object>)
    ensures forall o :: o in Live(holders) ==> o.ptr != Null
    decreases |holders|
  {
    if holders != [] {
      LiveAreNonNull(holders[..|holders| - 1]);
    }
  }

  lemma {:induction false} MadeAreNonNull(ops: seq<Op>)
    ensures forall o :: o in Made(ops) ==> o.ptr != Null
    decreases |ops|
  {
    if ops != [] {
      MadeAreNonNull(ops[..|ops| - 1]);
    }
  }

  /** Moving between two distinct holders destroys what the destination
      held and nothing else. */
  lemma MoveConserves(holders: seq<Object>, d: nat, s: nat)
    requires d < |holders| && s < |holders| && d != s
    ensures multiset(Live(holders[d := holders[s]][s := Object(Null, holders[s].deleter)]))
          + multiset(Destruct(holders[d]))
         == multiset(Live(holders))
  {
    var moved := holders[d := holders[s]];
    var emptied := Object(Null, holders[s].deleter);
    var before := multiset(Live(holders));
    var middle := multiset(Live(moved));
    var after := multiset(Live(moved[s := emptied]));
    var fromD := multiset(Destruct(holders[d]));
    var fromS := multiset(Destruct(holders[s]));
    LiveUpdate(holders, d, holders[s]);
    LiveUpdate(moved, s, emptied);
    assert moved[s] == holders[s];
    assert Destruct(emptied) == [];
    TwoStepBalance(before, middle, after, fromD, fromS);
  }

  /** The bookkeeping of a move: the destination's update, then the
      source's, with the source's object counted once in each. */
  lemma TwoStepBalance<T>(before: multiset<T>, middle: multiset<T>, after: multiset<T>,
                          fromD: multiset<T>, fromS: multiset<T>)
    requires middle + fromD == before + fromS
    requires after + fromS == middle
    ensures after + fromD == before
  {
    forall e
      ensures (after + fromD)[e] == before[e]
    {
      assert (middle + fromD)[e] == (before + fromS)[e];
      assert (after + fromS)[e] == middle[e];
    }
  }

  /** One operation neither creates nor loses an owned object: what the
      holders own afterwards plus what was destroyed is what they owned
      before plus what the operation brought in. */
  lemma ApplyConserves(holders: seq<Object>, op: Op)
    requires ValidOp(op, |holders|)
    ensures multiset(Live(Apply(holders, op).0)) + multiset(Apply(holders, op).1)
         == multiset(Live(holders)) + multiset(if op.Assign? then Destruct(op.made) else [])
  {
    match op
    case Assign(d, made) =>
      LiveUpdate(holders, d, made);
    case Move(d, s) =>
      if d != s {
        MoveConserves(holders, d, s);
      }
    case Reset(s) =>
      var emptied := Object(Null, holders[s].deleter);
      LiveUpdate(holders, s, emptied);
      assert Destruct(emptied) == [];
  }

  lemma {:induction false} RunConserves(holders: seq<Object>, ops: seq<Op>)
    requires ValidOps(ops, |holders|)
    ensures multiset(Live(Run(holders, ops).0)) + multiset(Run(holders, ops).1)
         == multiset(Live(holders)) + multiset(Made(ops))
    decreases |ops|
  {
    if ops != [] {
      var prefix := ops[..|ops| - 1];
      var last := ops[|ops| - 1];
      assert ValidOps(prefix, |holders|);
      var before := Run(holders, prefix);
      var after := Apply(before.0, last);
      var brought := if last.Assign? then Destruct(last.made) else [];
      RunConserves(holders, prefix);
      ApplyConserves(before.0, last);
      assert Run(holders, ops) == (after.0, before.1 + after.1);
      assert Made(ops) == Made(prefix) + brought;
      ChainBalance(multiset(Live(after.0)), multiset(Live(before.0)), multiset(Live(holders)),
                   multiset(before.1), multiset(after.1), multiset(Made(prefix)), multiset(brought));
    }
  }

  /** The bookkeeping of a run: a prefix balanced, then one more step. */
  lemma ChainBalance<T>(final: multiset<T>, middle: multiset<T>, initial: multiset<T>,
                        released1: multiset<T>, released2: multiset<T>,
                        made1: multiset<T>, made2: multiset<T>)
    requires final + released2 == middle + made2
    requires middle + released1 == initial + made1
    ensures final + (released1 + released2) == initial + (made1 + made2)
  {
    forall e
      ensures (final + (released1 + released2))[e] == (initial + (made1 + made2))[e]
    {
      assert (final + released2)[e] == (middle + made2)[e];
      assert (middle + released1)[e] == (initial + made1)[e];
    }
  }

  /** Every destroy call made by holders that start out null, go through
      any sequence of assignments, moves and resets, and are then destroyed
      at scope exit. */
  function Lifetime(n: nat, ops: seq<Op>): (released: seq<Object>)
    requires ValidOps(ops, n)
  {
    var r := Run(NullHolders(n), ops);
    r.1 + Live(r.0)
  }

  /** Each object handed to a holder is destroyed exactly as many times as
      it was handed over (so exactly once for a pointer handed over once),
      every destroy call is on a non-null pointer, and a null object never
      causes one. */
  lemma DestroyedExactlyOnce(n: nat, ops: seq<Op>)
    requires ValidOps(ops, n)
    ensures multiset(Lifetime(n, ops)) == multiset(Made(ops))
    ensures forall o :: o in Lifetime(n, ops) ==> o.ptr != Null
  {
    var r := Run(NullHolders(n), ops);
    var released := r.1 + Live(r.0);
    RunConserves(NullHolders(n), ops);
    LiveOfNulls(n);
    assert multiset(released) == multiset(Live(r.0)) + multiset(r.1);
    MadeAreNonNull(ops);
    forall o | o in released
      ensures o.ptr != Null
    {
      assert o in multiset(released);
      assert o in multiset(Made(ops));
    }
  }
}
