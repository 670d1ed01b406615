/**
 * The built-in functions of src/native.py. Each works directly on the VM:
 * the variadic ones pop the most recent argument-start marker and then pop
 * operands until the stack is back at that depth; the others pop a fixed
 * number of operands. The functions give what each built-in leaves behind
 * (the exception it raised and the state at that moment); the methods are
 * the pop loops, proved to leave exactly that.
 */
module Native {
  import opened Values
  import opened Vm
  import Cons

  /** The stack after a pop loop, the operands popped (top first), and the
      exception that ended the loop early, if any. */
  datatype Pop<T> = Pop(stack: seq<Value>, args: seq<T>, err: Option<Error>)

  // The pop loops

  /** Pop from `s` until its depth is `m`, requiring integers: popping an
      empty stack raises IndexError, popping a non-integer (a boolean
      included) raises at once. `args` holds the integers popped so far. */
  function PopIntsTo(s: seq<Value>, m: nat, args: seq<int>): (r: Pop<int>)
    ensures r.err.None? ==> |r.stack| == m && |r.args| == |args| + |s| - m
    decreases |s|
  {
    if |s| == m then Pop(s, args, None)
    else if |s| == 0 then Pop(s, args, Some(IndexError))
    else
      var el := s[|s| - 1];
      if !el.Int? then Pop(s[..|s| - 1], args, Some(InvalidType))
      else PopIntsTo(s[..|s| - 1], m, args + [el.i])
  }

  /** Pop from `s` until its depth is `m`, whatever the values. */
  function PopValuesTo(s: seq<Value>, m: nat, args: seq<Value>): (r: Pop<Value>)
    ensures r.err.None? ==> |r.stack| == m && |r.args| == |args| + |s| - m
    decreases |s|
  {
    if |s| == m then Pop(s, args, None)
    else if |s| == 0 then Pop(s, args, Some(IndexError))
    else PopValuesTo(s[..|s| - 1], m, args + [s[|s| - 1]])
  }

  /** The state and operands after `size = vm.argstarts.pop()` and the
      integer pop loop; an empty marker stack raises IndexError. */
  function IntArgs(st: State): (r: (Outcome, seq<int>))
    ensures r.0.st.defs == st.defs && r.0.st.cells == st.cells
    ensures st.argstarts != [] ==> r.0.st.argstarts == st.argstarts[..|st.argstarts| - 1]
    ensures r.0.err.None? ==>
      && st.argstarts != []
      && |r.0.st.stack| == st.argstarts[|st.argstarts| - 1]
      && |r.1| == |st.stack| - |r.0.st.stack|
  {
    if st.argstarts == [] then (Outcome(Some(IndexError), st), [])
    else
      var r := PopIntsTo(st.stack, st.argstarts[|st.argstarts| - 1], []);
      (Outcome(r.err, st.(stack := r.stack, argstarts := st.argstarts[..|st.argstarts| - 1])), r.args)
  }

  /** The same for the pop loop of `list`, which checks no types. */
  function ValueArgs(st: State): (r: (Outcome, seq<Value>))
    ensures r.0.st.defs == st.defs && r.0.st.cells == st.cells
    ensures st.argstarts != [] ==> r.0.st.argstarts == st.argstarts[..|st.argstarts| - 1]
    ensures r.0.err.None? ==>
      && st.argstarts != []
      && |r.0.st.stack| == st.argstarts[|st.argstarts| - 1]
      && |r.1| == |st.stack| - |r.0.st.stack|
  {
    if st.argstarts == [] then (Outcome(Some(IndexError), st), [])
    else
      var r := PopValuesTo(st.stack, st.argstarts[|st.argstarts| - 1], []);
      (Outcome(r.err, st.(stack := r.stack, argstarts := st.argstarts[..|st.argstarts| - 1])), r.args)
  }

  // add, sub, mul and div

  datatype ArithOp = Plus | Minus | Times

  function Apply(op: ArithOp, a: int, b: int): int
  {
    match op
    case Plus => a + b
    case Minus => a - b
    case Times => a * b
  }

  /** `reduce` of `op` over `acc` followed by `rest`: a left fold. */
  function Reduce(op: ArithOp, acc: int, rest: seq<int>): int
    decreases |rest|
  {
    if rest == [] then acc else Reduce(op, Apply(op, acc, rest[0]), rest[1..])
  }

  /** `add`, `sub` or `mul`: the operands in pop order folded from the left,
      pushed as one integer; no operand at all raises TypeError. */
  function ArithSpec(op: ArithOp, st: State): (r: Outcome)
    ensures r.st.defs == st.defs && r.st.cells == st.cells
    ensures r.err.None? ==> r.st.stack != [] && r.st.stack[|r.st.stack| - 1].Int?
  {
    var (o, args) := IntArgs(st);
    if o.err.Some? then o
    else if args == [] then Outcome(Some(TypeError), o.st)
    else Outcome(None, o.st.(stack := o.st.stack + [Int(Reduce(op, args[0], args[1..]))]))
  }

  /** Python's true division folded from `acc` over `rest`, kept exact;
      a zero divisor raises ZeroDivisionError (None). */
  function Quotient(acc: real, rest: seq<int>): Option<real>
    decreases |rest|
  {
    if rest == [] then Some(acc)
    else if rest[0] == 0 then None
    else Quotient(acc / rest[0] as real, rest[1..])
  }

  /** `div`: a single operand is pushed as it is (an integer), several give
      their quotient. */
  function DivSpec(st: State): (r: Outcome)
    ensures r.st.defs == st.defs && r.st.cells == st.cells
    ensures r.err.None? ==> r.st.stack != [] && (r.st.stack[|r.st.stack| - 1].Int? || r.st.stack[|r.st.stack| - 1].Float?)
  {
    var (o, args) := IntArgs(st);
    if o.err.Some? then o
    else if args == [] then Outcome(Some(TypeError), o.st)
    else if |args| == 1 then Outcome(None, o.st.(stack := o.st.stack + [Int(args[0])]))
    else
      match Quotient(args[0] as real, args[1..])
      case None => Outcome(Some(ZeroDivisionError), o.st)
      case Some(q) => Outcome(None, o.st.(stack := o.st.stack + [Float(q)]))
  }

  // list

  /** `reduce(lambda a, b: Cons(b, a), [acc] + items)`: each item, in order,
      becomes the car of a new cell whose cdr is the list so far, so the last
      item heads the result; item k gets cell number `next + k`. */
  function BuildList(items: seq<Value>, acc: Value, next: nat): Value
    decreases |items|
  {
    if items == [] then acc
    else Pair(next + |items| - 1, items[|items| - 1], BuildList(items[..|items| - 1], acc, next))
  }

  /** `list`: the operands in pop order folded onto None. */
  function ListSpec(st: State): (r: Outcome)
    ensures r.st.defs == st.defs && st.cells <= r.st.cells
    ensures r.err.None? ==> r.st.stack != [] && (r.st.stack[|r.st.stack| - 1] == Nil || r.st.stack[|r.st.stack| - 1].Pair?)
  {
    var (o, args) := ValueArgs(st);
    if o.err.Some? then o
    else Outcome(None, o.st.(stack := o.st.stack + [BuildList(args, Nil, st.cells)], cells := st.cells + |args|))
  }

  // The fixed-arity built-ins

  /** The number a value stands for in a Python comparison, if any:
      booleans count as 0 and 1. */
  function Numeric(v: Value): Option<real>
  {
    match v
    case Int(i) => Some(i as real)
    case Bool(b) => Some(if b then 1.0 else 0.0)
    case Float(r) => Some(r)
    case _ => None
  }

  /** Python's `==` on values: numbers compare by value, None only equals
      None, strings compare by contents, and a cell equals only itself. */
  predicate PyEq(a: Value, b: Value): (r: bool)
    ensures a == b ==> r
    ensures a.Pair? || b.Pair? || a == Nil || b == Nil ==> (r <==> a == b)
  {
    if Numeric(a).Some? && Numeric(b).Some? then Numeric(a) == Numeric(b) else a == b
  }

  /** The stack with its top popped and `v` pushed. */
  function Replace(st: State, v: Value): State
    requires st.stack != []
  {
    st.(stack := st.stack[..|st.stack| - 1] + [v])
  }

  /** The stack with its top popped. */
  function Popped(st: State): State
    requires st.stack != []
  {
    st.(stack := st.stack[..|st.stack| - 1])
  }

  /** `eq?`: pops a, then b, and pushes whether `a == b`. */
  function EqqSpec(st: State): (r: Outcome)
    ensures r.st.defs == st.defs && r.st.cells == st.cells
    ensures r.err.None? <==> |st.stack| >= 2
    ensures r.err.None? ==> |r.st.stack| == |st.stack| - 1 && r.st.stack[|r.st.stack| - 1].Bool?
  {
    var n := |st.stack|;
    if n == 0 then Outcome(Some(IndexError), st)
    else if n == 1 then Outcome(Some(IndexError), Popped(st))
    else Outcome(None, st.(stack := st.stack[..n - 2] + [Bool(PyEq(st.stack[n - 1], st.stack[n - 2]))]))
  }

  /** `atom?`: true exactly for an integer or a string. */
  function AtomqSpec(st: State): Outcome
  {
    if st.stack == [] then Outcome(Some(IndexError), st)
    else
      var el := st.stack[|st.stack| - 1];
      Outcome(None, Replace(st, Bool(el.Int? || el.Sym?)))
  }

  /** `nil?`: whether the operand equals None. */
  function NilqSpec(st: State): Outcome
  {
    if st.stack == [] then Outcome(Some(IndexError), st)
    else Outcome(None, Replace(st, Bool(PyEq(st.stack[|st.stack| - 1], Nil))))
  }

  /** `cons`: pops a, then b, and pushes a new cell (b . a). */
  function ConsSpec(st: State): Outcome
  {
    var n := |st.stack|;
    if n == 0 then Outcome(Some(IndexError), st)
    else if n == 1 then Outcome(Some(IndexError), Popped(st))
    else
      var cell := Pair(st.cells, st.stack[n - 2], st.stack[n - 1]);
      Outcome(None, st.(stack := st.stack[..n - 2] + [cell], cells := st.cells + 1))
  }

  /** `car` (`first`) or `cdr`: pops a cell and pushes one of its fields; any
      other operand raises after the pop. */
  function FieldSpec(first: bool, st: State): Outcome
  {
    if st.stack == [] then Outcome(Some(IndexError), st)
    else
      var el := st.stack[|st.stack| - 1];
      if !el.Pair? then Outcome(Some(InvalidType), Popped(st))
      else Outcome(None, Replace(st, if first then el.car else el.cdr))
  }

  /** `log`: pops its operand (printing it is not modelled). */
  function LogSpec(st: State): Outcome
  {
    if st.stack == [] then Outcome(Some(IndexError), st) else Outcome(None, Popped(st))
  }

  /** What calling the native function `f` leaves. */
  function Invoke(f: NativeFn, st: State): Outcome
  {
    match f
    case Add => ArithSpec(Plus, st)
    case Sub => ArithSpec(Minus, st)
    case Mul => ArithSpec(Times, st)
    case Div => DivSpec(st)
    case Log => LogSpec(st)
    case Eqq => EqqSpec(st)
    case Atomq => AtomqSpec(st)
    case Nilq => NilqSpec(st)
    case ConsFn => ConsSpec(st)
    case List => ListSpec(st)
    case Car => FieldSpec(true, st)
    case Cdr => FieldSpec(false, st)
  }

  // The built-ins on the VM

  /** `size = vm.argstarts.pop()` and the loop popping integer operands. */
  method PopIntArgs(vm: VM) returns (args: seq<int>, err: Option<Error>)
    modifies vm
    ensures (Outcome(err, vm.Snapshot()), args) == IntArgs(old(vm.Snapshot()))
    ensures vm.code == old(vm.code) && vm.pc == old(vm.pc)
  {
    if vm.argstarts == [] {
      return [], Some(IndexError);
    }
    var size := vm.argstarts[|vm.argstarts| - 1];
    vm.argstarts := vm.argstarts[..|vm.argstarts| - 1];
    args := [];
    while |vm.stack| != size
      invariant PopIntsTo(vm.stack, size, args) == PopIntsTo(old(vm.stack), size, [])
      invariant vm.argstarts == old(vm.argstarts)[..|old(vm.argstarts)| - 1]
      invariant vm.defs == old(vm.defs) && vm.cells == old(vm.cells)
      invariant vm.code == old(vm.code) && vm.pc == old(vm.pc)
      decreases |vm.stack|
    {
      if vm.stack == [] {
        return args, Some(IndexError);
      }
      var el := vm.stack[|vm.stack| - 1];
      vm.stack := vm.stack[..|vm.stack| - 1];
      if !el.Int? {
        return args, Some(InvalidType);
      }
      args := args + [el.i];
    }
    err := None;
  }

  /** `add`, `sub` and `mul`. */
  method Arithmetic(vm: VM, op: ArithOp) returns (err: Option<Error>)
    modifies vm
    ensures Outcome(err, vm.Snapshot()) == ArithSpec(op, old(vm.Snapshot()))
    ensures vm.code == old(vm.code) && vm.pc == old(vm.pc)
  {
    var args;
    args, err := PopIntArgs(vm);
    if err.Some? {
      return;
    }
    if args == [] {
      return Some(TypeError);
    }
    vm.stack := vm.stack + [Int(Reduce(op, args[0], args[1..]))];
  }

  /** `div`. */
  method Divide(vm: VM) returns (err: Option<Error>)
    modifies vm
    ensures Outcome(err, vm.Snapshot()) == DivSpec(old(vm.Snapshot()))
    ensures vm.code == old(vm.code) && vm.pc == old(vm.pc)
  {
    var args;
    args, err := PopIntArgs(vm);
    if err.Some? {
      return;
    }
    if args == [] {
      return Some(TypeError);
    }
    if |args| == 1 {
      vm.stack := vm.stack + [Int(args[0])];
      return;
    }
    var q := Quotient(args[0] as real, args[1..]);
    if q.None? {
      return Some(ZeroDivisionError);
    }
    vm.stack := vm.stack + [Float(q.value)];
  }

  /** `list`. */
  method MakeList(vm: VM) returns (err: Option<Error>)
    modifies vm
    ensures Outcome(err, vm.Snapshot()) == ListSpec(old(vm.Snapshot()))
    ensures vm.code == old(vm.code) && vm.pc == old(vm.pc)
  {
    var args;
    args, err := PopValueArgs(vm);
    if err.Some? {
      return;
    }
    vm.stack := vm.stack + [BuildList(args, Nil, vm.cells)];
    vm.cells := vm.cells + |args|;
  }

  /** `size = vm.argstarts.pop()` and the loop of `list` popping its operands. */
  method PopValueArgs(vm: VM) returns (args: seq<Value>, err: Option<Error>)
    modifies vm
    ensures (Outcome(err, vm.Snapshot()), args) == ValueArgs(old(vm.Snapshot()))
    ensures vm.code == old(vm.code) && vm.pc == old(vm.pc)
  {
    if vm.argstarts == [] {
      return [], Some(IndexError);
    }
    var size := vm.argstarts[|vm.argstarts| - 1];
    vm.argstarts := vm.argstarts[..|vm.argstarts| - 1];
    args := [];
    while |vm.stack| != size
      invariant PopValuesTo(vm.stack, size, args) == PopValuesTo(old(vm.stack), size, [])
      invariant vm.argstarts == old(vm.argstarts)[..|old(vm.argstarts)| - 1]
      invariant vm.defs == old(vm.defs) && vm.cells == old(vm.cells)
      invariant vm.code == old(vm.code) && vm.pc == old(vm.pc)
      decreases |vm.stack|
    {
      if vm.stack == [] {
        return args, Some(IndexError);
      }
      var el := vm.stack[|vm.stack| - 1];
      vm.stack := vm.stack[..|vm.stack| - 1];
      args := args + [el];
    }
    err := None;
  }

  /** `eq?`. */
  method Eq(vm: VM) returns (err: Option<Error>)
    modifies vm
    ensures Outcome(err, vm.Snapshot()) == EqqSpec(old(vm.Snapshot()))
    ensures vm.code == old(vm.code) && vm.pc == old(vm.pc)
  {
    if vm.stack == [] {
      return Some(IndexError);
    }
    var a := vm.stack[|vm.stack| - 1];
    vm.stack := vm.stack[..|vm.stack| - 1];
    if vm.stack == [] {
      return Some(IndexError);
    }
    var b := vm.stack[|vm.stack| - 1];
    vm.stack := vm.stack[..|vm.stack| - 1];
    vm.stack := vm.stack + [Bool(PyEq(a, b))];
    err := None;
  }

  /** `atom?`. */
  method IsAtom(vm: VM) returns (err: Option<Error>)
    modifies vm
    ensures Outcome(err, vm.Snapshot()) == AtomqSpec(old(vm.Snapshot()))
    ensures vm.code == old(vm.code) && vm.pc == old(vm.pc)
  {
    if vm.stack == [] {
      return Some(IndexError);
    }
    var el := vm.stack[|vm.stack| - 1];
    vm.stack := vm.stack[..|vm.stack| - 1] + [Bool(el.Int? || el.Sym?)];
    err := None;
  }

  /** `nil?`. */
  method IsNil(vm: VM) returns (err: Option<Error>)
    modifies vm
    ensures Outcome(err, vm.Snapshot()) == NilqSpec(old(vm.Snapshot()))
    ensures vm.code == old(vm.code) && vm.pc == old(vm.pc)
  {
    if vm.stack == [] {
      return Some(IndexError);
    }
    var el := vm.stack[|vm.stack| - 1];
    vm.stack := vm.stack[..|vm.stack| - 1] + [Bool(PyEq(el, Nil))];
    err := None;
  }

  /** `cons`. */
  method MakeCons(vm: VM) returns (err: Option<Error>)
    modifies vm
    ensures Outcome(err, vm.Snapshot()) == ConsSpec(old(vm.Snapshot()))
    ensures vm.code == old(vm.code) && vm.pc == old(vm.pc)
  {
    if vm.stack == [] {
      return Some(IndexError);
    }
    var a := vm.stack[|vm.stack| - 1];
    vm.stack := vm.stack[..|vm.stack| - 1];
    if vm.stack == [] {
      return Some(IndexError);
    }
    var b := vm.stack[|vm.stack| - 1];
    vm.stack := vm.stack[..|vm.stack| - 1] + [Pair(vm.cells, b, a)];
    vm.cells := vm.cells + 1;
    err := None;
  }

  /** `car` (`first`) and `cdr`. */
  method Field(vm: VM, first: bool) returns (err: Option<Error>)
    modifies vm
    ensures Outcome(err, vm.Snapshot()) == FieldSpec(first, old(vm.Snapshot()))
    ensures vm.code == old(vm.code) && vm.pc == old(vm.pc)
  {
    if vm.stack == [] {
      return Some(IndexError);
    }
    var el := vm.stack[|vm.stack| - 1];
    vm.stack := vm.stack[..|vm.stack| - 1];
    if !el.Pair? {
      return Some(InvalidType);
    }
    vm.stack := vm.stack + [if first then el.car else el.cdr];
    err := None;
  }

  /** `log`. */
  method Print(vm: VM) returns (err: Option<Error>)
    modifies vm
    ensures Outcome(err, vm.Snapshot()) == LogSpec(old(vm.Snapshot()))
    ensures vm.code == old(vm.code) && vm.pc == old(vm.pc)
  {
    if vm.stack == [] {
      return Some(IndexError);
    }
    vm.stack := vm.stack[..|vm.stack| - 1];
    err := None;
  }

  /** `vm.fns[name](vm)` once the name is resolved to `f`. */
  method Call(vm: VM, f: NativeFn) returns (err: Option<Error>)
    modifies vm
    ensures Outcome(err, vm.Snapshot()) == Invoke(f, old(vm.Snapshot()))
    ensures vm.code == old(vm.code) && vm.pc == old(vm.pc)
  {
    match f
    case Add => err := Arithmetic(vm, Plus);
    case Sub => err := Arithmetic(vm, Minus);
    case Mul => err := Arithmetic(vm, Times);
    case Div => err := Divide(vm);
    case Log => err := Print(vm);
    case Eqq => err := Eq(vm);
    case Atomq => err := IsAtom(vm);
    case Nilq => err := IsNil(vm);
    case ConsFn => err := MakeCons(vm);
    case List => err := MakeList(vm);
    case Car => err := Field(vm, true);
    case Cdr => err := Field(vm, false);
  }

  // Properties of the built-ins

  /** The integers of `vs`, in order. */
  function Ints(vs: seq<Value>): (r: seq<int>)
    requires forall k :: 0 <= k < |vs| ==> vs[k].Int?
    ensures |r| == |vs|
  {
    seq(|vs|, k requires 0 <= k < |vs| => vs[k].i)
  }

  /** From a depth `m` at or below the top, the integer pop loop takes the
      values above `m` top first, and fails on the first non-integer. */
  lemma {:induction false} PopIntsRegion(s: seq<Value>, m: nat, args: seq<int>)
    requires m <= |s|
    ensures (forall k :: m <= k < |s| ==> s[k].Int?) ==>
      PopIntsTo(s, m, args) == Pop(s[..m], args + Rev(Ints(s[m..])), None)
    ensures (exists k :: m <= k < |s| && !s[k].Int?) ==> PopIntsTo(s, m, args).err == Some(InvalidType)
    decreases |s|
  {
    if |s| > m {
      var last := |s| - 1;
      var init := s[..last];
      if s[last].Int? {
        PopIntsRegion(init, m, args + [s[last].i]);
        assert init[..m] == s[..m];
        if forall k :: m <= k < |s| ==> s[k].Int? {
          assert s[m..] == init[m..] + [s[last]];
          assert Ints(s[m..]) == Ints(init[m..]) + [s[last].i];
          RevAppend(Ints(init[m..]), s[last].i);
        }
        if exists k :: m <= k < |s| && !s[k].Int? {
          var k :| m <= k < |s| && !s[k].Int?;
          assert init[k] == s[k];
        }
      }
    } else {
      assert s[..m] == s && s[m..] == [];
    }
  }

  /** The same for the untyped pop loop of `list`. */
  lemma {:induction false} PopValuesRegion(s: seq<Value>, m: nat, args: seq<Value>)
    requires m <= |s|
    ensures PopValuesTo(s, m, args) == Pop(s[..m], args + Rev(s[m..]), None)
    decreases |s|
  {
    if |s| > m {
      var last := |s| - 1;
      var init := s[..last];
      PopValuesRegion(init, m, args + [s[last]]);
      assert init[..m] == s[..m];
      assert s[m..] == init[m..] + [s[last]];
      RevAppend(init[m..], s[last]);
    } else {
      assert s[..m] == s && s[m..] == [];
    }
  }

  /** With the latest marker at depth m below the top and only integers above
      it, `add`, `sub` and `mul` drop the marker and replace those integers by
      their left fold taken top first; a single operand comes back unchanged. */
  lemma {:induction false} ArithOnIntegers(op: ArithOp, st: State)
    requires st.argstarts != []
    requires st.argstarts[|st.argstarts| - 1] < |st.stack|
    requires forall k :: st.argstarts[|st.argstarts| - 1] <= k < |st.stack| ==> st.stack[k].Int?
    ensures var m := st.argstarts[|st.argstarts| - 1];
      var args := Rev(Ints(st.stack[m..]));
      args[0] == st.stack[|st.stack| - 1].i
      && ArithSpec(op, st) == Outcome(None, st.(stack := st.stack[..m] + [Int(Reduce(op, args[0], args[1..]))],
                                               argstarts := st.argstarts[..|st.argstarts| - 1]))
      && (m + 1 == |st.stack| ==> ArithSpec(op, st).st.stack == st.stack[..m] + [st.stack[m]])
  {
    var m := st.argstarts[|st.argstarts| - 1];
    PopIntsRegion(st.stack, m, []);
    var args := Rev(Ints(st.stack[m..]));
    assert [] + args == args;
    assert IntArgs(st).1 == args;
    RevAt(Ints(st.stack[m..]), 0);
    if m + 1 == |st.stack| {
      assert args[1..] == [];
      assert Int(args[0]) == st.stack[m];
    }
  }

  /** Operands of the wrong type, none at all, or a marker above the top. */
  lemma {:induction false} ArithRejects(op: ArithOp, st: State)
    requires st.argstarts != []
    ensures var m := st.argstarts[|st.argstarts| - 1];
      (m <= |st.stack| && exists k :: m <= k < |st.stack| && !st.stack[k].Int?) ==> ArithSpec(op, st).err == Some(InvalidType)
    ensures st.argstarts[|st.argstarts| - 1] == |st.stack| ==> ArithSpec(op, st).err == Some(TypeError)
  {
    var m := st.argstarts[|st.argstarts| - 1];
    if m <= |st.stack| {
      PopIntsRegion(st.stack, m, []);
    }
  }

  /** `(- 10 3 2)` pushes 2, 3 and 10 after its marker; `sub` then computes
      10 - 3 - 2 = 5. */
  lemma SubInSourceOrder()
    ensures ArithSpec(Minus, State([Int(2), Int(3), Int(10)], [0], map[], 0))
      == Outcome(None, State([Int(5)], [], map[], 0))
  {
    var st := State([Int(2), Int(3), Int(10)], [0], map[], 0);
    ArithOnIntegers(Minus, st);
    assert st.stack[0..] == st.stack;
    assert Ints(st.stack) == [2, 3, 10];
    assert Rev([2, 3, 10]) == [10, 3, 2] by {
      assert [2, 3, 10][1..] == [3, 10] && [3, 10][1..] == [10] && [10][1..] == [];
    }
    assert [10, 3, 2][1..] == [3, 2] && [3, 2][1..] == [2] && [2][1..] == [];
    assert Reduce(Minus, 10, [3, 2]) == 5;
  }

  /** The cars of the cells `BuildList` makes: the items in reverse, in front
      of those of `acc`. */
  lemma {:induction false} BuildListSpine(items: seq<Value>, acc: Value, next: nat)
    requires items != []
    ensures BuildList(items, acc, next).Pair?
    ensures Cons.Spine(BuildList(items, acc, next)) == Rev(items) + (if acc.Pair? then Cons.Spine(acc) else [])
    decreases |items|
  {
    var init := items[..|items| - 1];
    var x := items[|items| - 1];
    var rest := if acc.Pair? then Cons.Spine(acc) else [];
    var front := BuildList(init, acc, next);
    assert BuildList(items, acc, next) == Pair(next + |items| - 1, x, front);
    RevLast(items);
    if init == [] {
      calc {
        Cons.Spine(BuildList(items, acc, next));
        [x] + rest;
        { assert Rev(init) == []; }
        ([x] + Rev(init)) + rest;
      }
    } else {
      BuildListSpine(init, acc, next);
      calc {
        Cons.Spine(BuildList(items, acc, next));
        [x] + Cons.Spine(front);
        [x] + (Rev(init) + rest);
        { SeqAssoc([x], Rev(init), rest); }
        ([x] + Rev(init)) + rest;
      }
    }
  }

  /** `BuildList` keeps the tail of `acc`, or `acc` itself when it is no cell. */
  lemma {:induction false} BuildListTail(items: seq<Value>, acc: Value, next: nat)
    requires items != []
    ensures BuildList(items, acc, next).Pair?
    ensures Cons.Tail(BuildList(items, acc, next)) == if acc.Pair? then Cons.Tail(acc) else acc
    decreases |items|
  {
    var init := items[..|items| - 1];
    if init != [] {
      BuildListTail(init, acc, next);
    }
  }

  /** With the latest marker at depth m at or below the top, `list` replaces
      the values above m by one list holding them bottom to top (the value
      just above the marker first), or by None when there are none. */
  lemma {:induction false} ListOfRegion(st: State)
    requires st.argstarts != [] && st.argstarts[|st.argstarts| - 1] <= |st.stack|
    ensures var m := st.argstarts[|st.argstarts| - 1];
      var o := ListSpec(st);
      o.err.None? && |o.st.stack| == m + 1 && o.st.stack[..m] == st.stack[..m]
      && o.st.argstarts == st.argstarts[..|st.argstarts| - 1]
      && o.st.cells == st.cells + (|st.stack| - m)
      && (m == |st.stack| ==> o.st.stack[m] == Nil)
      && (m < |st.stack| ==>
            o.st.stack[m].Pair? && Cons.Spine(o.st.stack[m]) == st.stack[m..] && Cons.Tail(o.st.stack[m]) == Nil)
  {
    var m := st.argstarts[|st.argstarts| - 1];
    PopValuesRegion(st.stack, m, []);
    assert [] + Rev(st.stack[m..]) == Rev(st.stack[m..]);
    var list := BuildList(Rev(st.stack[m..]), Nil, st.cells);
    assert ListSpec(st).st.stack == st.stack[..m] + [list];
    if m < |st.stack| {
      BuildListSpine(Rev(st.stack[m..]), Nil, st.cells);
      BuildListTail(Rev(st.stack[m..]), Nil, st.cells);
      RevRev(st.stack[m..]);
      assert Cons.Spine(list) == st.stack[m..] + [];
    }
  }

  /** `car` and `cdr` undo `cons`: the car is the operand that was second
      from the top, the cdr the one on top. */
  lemma {:induction false} FieldOfCons(st: State, first: bool)
    requires |st.stack| >= 2
    ensures var n := |st.stack|;
      ConsSpec(st).err.None?
      && FieldSpec(first, ConsSpec(st).st)
         == Outcome(None, st.(stack := st.stack[..n - 2] + [if first then st.stack[n - 2] else st.stack[n - 1]],
                              cells := st.cells + 1))
  {
    var n := |st.stack|;
    var after := ConsSpec(st).st;
    assert after.stack[..n - 2] == st.stack[..n - 2];
  }

  /** No built-in touches the definitions, whether it returns or raises. */
  lemma {:induction false} BuiltinsKeepDefinitions(f: NativeFn, st: State)
    ensures Invoke(f, st).st.defs == st.defs
  {
  }

  /** A cell made by `cons` is `eq?` to no value already on the stack, as
      long as every cell there was made before it. */
  lemma {:induction false} NewCellIsDistinct(st: State)
    requires |st.stack| >= 2
    requires forall k :: 0 <= k < |st.stack| && st.stack[k].Pair? ==> st.stack[k].id < st.cells
    ensures var cell := ConsSpec(st).st.stack[|st.stack| - 2];
      cell.Pair? && forall k :: 0 <= k < |st.stack| ==> !PyEq(cell, st.stack[k]) && !PyEq(st.stack[k], cell)
  {
  }
}
