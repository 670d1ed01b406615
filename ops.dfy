/**
 * The opcodes of src/ops.py and their handlers. Each handler reads its
 * operand from the code after the opcode, changes the VM's stacks or
 * definitions, and tells the dispatch loop how far to move the program
 * counter. The functions give what each handler leaves behind; the methods
 * act on the VM and are proved to leave exactly that.
 */
module Ops {
  import opened Values
  import opened Vm
  import Native

  /** The opcode numbers. */
  const AtomOpcode: int := 0
  const CallOpcode: int := 1
  const DefineOpcode: int := 2
  const FindOpcode: int := 3
  const StartArgsOpcode: int := 4

  /** The handler functions. */
  datatype Handler = AtomOp | CallOp | DefineOp | FindOp | StartArgsOp

  /** `OPTABLE`: the handler of opcode i at index i. */
  const Table: seq<Handler> := [AtomOp, CallOp, DefineOp, FindOp, StartArgsOp]

  /** `OPTABLE[x]` with Python's list indexing: a negative integer counts from
      the end, a boolean indexes as 0 or 1, any other integer raises
      IndexError and any other value TypeError. */
  function Lookup(x: Value): (r: Result<Handler>)
    ensures r.Ok? <==> (x.Int? && -|Table| <= x.i < |Table|) || x.Bool?
    ensures x.Int? && 0 <= x.i < |Table| ==> r == Ok(Table[x.i])
    ensures x.Int? && -|Table| <= x.i < 0 ==> r == Ok(Table[x.i + |Table|])
    ensures !x.Int? && !x.Bool? ==> r == Err(TypeError)
    ensures x.Bool? ==> r == Ok(Table[if x.b then 1 else 0])
    ensures x.Int? && !(-|Table| <= x.i < |Table|) ==> r == Err(IndexError)
  {
    match x
    case Int(i) =>
      if 0 <= i < |Table| then Ok(Table[i])
      else if -|Table| <= i < 0 then Ok(Table[i + |Table|])
      else Err(IndexError)
    case Bool(b) => Ok(Table[if b then 1 else 0])
    case _ => Err(TypeError)
  }

  /** Each opcode number selects its own handler. */
  lemma OpcodesSelectHandlers()
    ensures Lookup(Int(AtomOpcode)) == Ok(AtomOp) && Lookup(Int(CallOpcode)) == Ok(CallOp)
    ensures Lookup(Int(DefineOpcode)) == Ok(DefineOp) && Lookup(Int(FindOpcode)) == Ok(FindOp)
    ensures Lookup(Int(StartArgsOpcode)) == Ok(StartArgsOp)
  {
  }

  /** The step a handler returns: one more than the operands it reads from
      the code. */
  function Skip(h: Handler): (n: nat)
    ensures n == 1 || n == 2
    ensures n == 2 <==> h in {AtomOp, DefineOp, FindOp}
  {
    match h
    case AtomOp => 2
    case CallOp => 1
    case DefineOp => 2
    case FindOp => 2
    case StartArgsOp => 1
  }

  // What each handler leaves

  /** `opAtom`: pushes the operand. */
  function AtomSpec(code: seq<Value>, pc: int, st: State): (r: Outcome)
    ensures r.err.None? <==> 0 <= pc + 1 < |code|
    ensures r.err.None? ==> r.st == st.(stack := st.stack + [code[pc + 1]])
    ensures r.err.Some? ==> r.st == st
  {
    match CodeAt(code, pc + 1)
    case Err(e) => Outcome(Some(e), st)
    case Ok(v) => Outcome(None, st.(stack := st.stack + [v]))
  }

  /** `opCall`: pops a name and runs the native function of that name; a
      name the table lacks raises KeyError after the pop. */
  function CallSpec(st: State): (r: Outcome)
    ensures r.st.defs == st.defs
    ensures st.stack == [] ==> r == Outcome(Some(IndexError), st)
    ensures st.stack != [] && !(st.stack[|st.stack| - 1].Sym? && st.stack[|st.stack| - 1].name in Natives) ==>
      r == Outcome(Some(KeyError), st.(stack := st.stack[..|st.stack| - 1]))
  {
    if st.stack == [] then Outcome(Some(IndexError), st)
    else
      var name := st.stack[|st.stack| - 1];
      var rest := st.(stack := st.stack[..|st.stack| - 1]);
      if name.Sym? && name.name in Natives then Native.Invoke(Natives[name.name], rest)
      else Outcome(Some(KeyError), rest)
  }

  /** `opDefine`: pops a value and binds the operand to it, replacing any
      earlier binding. The pop comes first, so a missing operand raises
      after it. */
  function DefineSpec(code: seq<Value>, pc: int, st: State): (r: Outcome)
    ensures r.err.None? <==> st.stack != [] && 0 <= pc + 1 < |code|
    ensures r.st.argstarts == st.argstarts
    ensures st.stack != [] ==> r.st.stack == st.stack[..|st.stack| - 1]
    ensures r.err.None? ==> r.st.defs == st.defs[code[pc + 1] := st.stack[|st.stack| - 1]]
    ensures r.err.Some? ==> r.st.defs == st.defs
  {
    if st.stack == [] then Outcome(Some(IndexError), st)
    else
      var v := st.stack[|st.stack| - 1];
      var rest := st.(stack := st.stack[..|st.stack| - 1]);
      match CodeAt(code, pc + 1)
      case Err(e) => Outcome(Some(e), rest)
      case Ok(name) => Outcome(None, rest.(defs := rest.defs[name := v]))
  }

  /** `opFind`: pushes the value bound to the operand; an unbound name
      raises. */
  function FindSpec(code: seq<Value>, pc: int, st: State): (r: Outcome)
    ensures r.err.None? <==> 0 <= pc + 1 < |code| && code[pc + 1] in st.defs
    ensures r.err.None? ==> r.st == st.(stack := st.stack + [st.defs[code[pc + 1]]])
    ensures r.err.Some? ==> r.st == st
  {
    match CodeAt(code, pc + 1)
    case Err(e) => Outcome(Some(e), st)
    case Ok(name) =>
      if name !in st.defs then Outcome(Some(Undefined), st)
      else Outcome(None, st.(stack := st.stack + [st.defs[name]]))
  }

  /** `opStartArgs`: pushes the current stack depth as a marker. */
  function StartArgsSpec(st: State): (r: Outcome)
    ensures r.err.None? && r.st.stack == st.stack && r.st.defs == st.defs
    ensures |r.st.argstarts| == |st.argstarts| + 1 && r.st.argstarts[..|st.argstarts|] == st.argstarts
    ensures r.st.argstarts[|st.argstarts|] == |r.st.stack|
  {
    Outcome(None, st.(argstarts := st.argstarts + [|st.stack|]))
  }

  /** What handler `h` leaves, run at `pc` in `code`. */
  function Handle(h: Handler, code: seq<Value>, pc: int, st: State): Outcome
  {
    match h
    case AtomOp => AtomSpec(code, pc, st)
    case CallOp => CallSpec(st)
    case DefineOp => DefineSpec(code, pc, st)
    case FindOp => FindSpec(code, pc, st)
    case StartArgsOp => StartArgsSpec(st)
  }

  // The handlers on the VM

  /** `opAtom`. */
  method Atom(vm: VM) returns (skip: nat, err: Option<Error>)
    modifies vm
    ensures Outcome(err, vm.Snapshot()) == AtomSpec(vm.code, vm.pc, old(vm.Snapshot()))
    ensures vm.code == old(vm.code) && vm.pc == old(vm.pc)
    ensures skip == Skip(AtomOp)
  {
    skip := 2;
    var v := vm.Pcval(1);
    if v.Err? {
      return skip, Some(v.error);
    }
    vm.stack := vm.stack + [v.value];
    err := None;
  }

  /** `opCall`. */
  method Call(vm: VM) returns (skip: nat, err: Option<Error>)
    modifies vm
    ensures Outcome(err, vm.Snapshot()) == CallSpec(old(vm.Snapshot()))
    ensures vm.code == old(vm.code) && vm.pc == old(vm.pc)
    ensures skip == Skip(CallOp)
  {
    skip := 1;
    if vm.stack == [] {
      return skip, Some(IndexError);
    }
    var name := vm.stack[|vm.stack| - 1];
    vm.stack := vm.stack[..|vm.stack| - 1];
    if !(name.Sym? && name.name in Natives) {
      return skip, Some(KeyError);
    }
    err := Native.Call(vm, Natives[name.name]);
  }

  /** `opDefine`. */
  method Define(vm: VM) returns (skip: nat, err: Option<Error>)
    modifies vm
    ensures Outcome(err, vm.Snapshot()) == DefineSpec(vm.code, vm.pc, old(vm.Snapshot()))
    ensures vm.code == old(vm.code) && vm.pc == old(vm.pc)
    ensures skip == Skip(DefineOp)
  {
    skip := 2;
    if vm.stack == [] {
      return skip, Some(IndexError);
    }
    var v := vm.stack[|vm.stack| - 1];
    vm.stack := vm.stack[..|vm.stack| - 1];
    var name := vm.Pcval(1);
    if name.Err? {
      return skip, Some(name.error);
    }
    vm.defs := vm.defs[name.value := v];
    err := None;
  }

  /** `opFind`. */
  method Find(vm: VM) returns (skip: nat, err: Option<Error>)
    modifies vm
    ensures Outcome(err, vm.Snapshot()) == FindSpec(vm.code, vm.pc, old(vm.Snapshot()))
    ensures vm.code == old(vm.code) && vm.pc == old(vm.pc)
    ensures skip == Skip(FindOp)
  {
    skip := 2;
    var name := vm.Pcval(1);
    if name.Err? {
      return skip, Some(name.error);
    }
    if name.value !in vm.defs {
      return skip, Some(Undefined);
    }
    vm.stack := vm.stack + [vm.defs[name.value]];
    err := None;
  }

  /** `opStartArgs`. */
  method StartArgs(vm: VM) returns (skip: nat, err: Option<Error>)
    modifies vm
    ensures Outcome(err, vm.Snapshot()) == StartArgsSpec(old(vm.Snapshot()))
    ensures vm.code == old(vm.code) && vm.pc == old(vm.pc)
    ensures skip == Skip(StartArgsOp)
  {
    vm.argstarts := vm.argstarts + [|vm.stack|];
    return 1, None;
  }

  /** `OPTABLE[op](vm)` once the opcode is resolved to `h`. */
  method Dispatch(vm: VM, h: Handler) returns (skip: nat, err: Option<Error>)
    modifies vm
    ensures Outcome(err, vm.Snapshot()) == Handle(h, vm.code, vm.pc, old(vm.Snapshot()))
    ensures vm.code == old(vm.code) && vm.pc == old(vm.pc)
    ensures skip == Skip(h)
  {
    match h
    case AtomOp => skip, err := Atom(vm);
    case CallOp => skip, err := Call(vm);
    case DefineOp => skip, err := Define(vm);
    case FindOp => skip, err := Find(vm);
    case StartArgsOp => skip, err := StartArgs(vm);
  }

  // Properties of the handlers

  /** A handler that returns normally has read only words inside the code,
      so the program counter never steps past the end. */
  lemma {:induction false} StepStaysInCode(h: Handler, code: seq<Value>, pc: int, st: State)
    requires 0 <= pc < |code|
    requires Handle(h, code, pc, st).err.None?
    ensures pc + Skip(h) <= |code|
  {
    if Skip(h) == 2 {
      assert CodeAt(code, pc + 1).Ok?;
    }
  }

  /** Finding a name right after defining it pushes the value the definition
      popped, and leaves the stack as it was before the definition. */
  lemma {:induction false} FindAfterDefine(code: seq<Value>, pc: int, code2: seq<Value>, pc2: int, st: State)
    requires DefineSpec(code, pc, st).err.None?
    requires CodeAt(code2, pc2 + 1) == CodeAt(code, pc + 1)
    ensures var d := DefineSpec(code, pc, st).st;
      FindSpec(code2, pc2, d) == Outcome(None, d.(stack := st.stack))
  {
    var d := DefineSpec(code, pc, st).st;
    var n := |st.stack|;
    assert st.stack[..n - 1] + [st.stack[n - 1]] == st.stack;
  }

  /** Only `opDefine` binds names, and only `opCall` and `opStartArgs` touch
      the argument markers, whether the handler returns or raises. */
  lemma {:induction false} HandleFrame(h: Handler, code: seq<Value>, pc: int, st: State)
    ensures h != DefineOp ==> Handle(h, code, pc, st).st.defs == st.defs
    ensures h != CallOp && h != StartArgsOp ==> Handle(h, code, pc, st).st.argstarts == st.argstarts
  {
  }

  /** A later definition of a name replaces the earlier one and leaves every
      other binding alone. */
  lemma {:induction false} DefineReplaces(code: seq<Value>, pc: int, st: State, other: Value)
    requires DefineSpec(code, pc, st).err.None?
    ensures var name := code[pc + 1];
      var d := DefineSpec(code, pc, st).st.defs;
      name in d && d[name] == st.stack[|st.stack| - 1]
      && (other != name ==> (other in d <==> other in st.defs))
      && (other != name && other in st.defs ==> d[other] == st.defs[other])
  {
  }

  /** The marker `opStartArgs` pushes delimits the operands of the next
      variadic call: start the arguments, push integer operands and the name
      of an arithmetic built-in, and `opCall` leaves the stack below the
      marker plus one integer, with the marker gone. */
  lemma {:induction false} MarkerDelimitsOperands(st: State, xs: seq<Value>, name: string, op: Native.ArithOp)
    requires xs != [] && forall k :: 0 <= k < |xs| ==> xs[k].Int?
    requires name in Natives && Natives[name] == (match op case Plus => Add case Minus => Sub case Times => Mul)
    ensures var marked := StartArgsSpec(st).st;
      var called := marked.(stack := marked.stack + xs + [Sym(name)]);
      var args := Rev(Native.Ints(xs));
      CallSpec(called) == Outcome(None, st.(stack := st.stack + [Int(Native.Reduce(op, args[0], args[1..]))]))
  {
    var marked := StartArgsSpec(st).st;
    var pushed := marked.(stack := marked.stack + xs);
    var called := marked.(stack := marked.stack + xs + [Sym(name)]);
    var m := |st.stack|;
    assert called.stack[..|called.stack| - 1] == pushed.stack;
    assert CallSpec(called) == Native.Invoke(Natives[name], pushed);
    assert Native.Invoke(Natives[name], pushed) == Native.ArithSpec(op, pushed);
    assert pushed.stack[m..] == xs && pushed.stack[..m] == st.stack;
    assert pushed.argstarts[..|pushed.argstarts| - 1] == st.argstarts;
    Native.ArithOnIntegers(op, pushed);
  }
}
