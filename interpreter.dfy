/**
 * The dispatch loop of src/vm.py: `run` loads the code, resets the program
 * counter and the operand stack, hands each opcode to its handler and
 * advances by what the handler returns, then shows and pops whatever is left
 * on top. Definitions and argument markers survive from one run to the next.
 */
module Interpreter {
  import opened Values
  import opened Vm
  import opened Ops

  /** Where the dispatch loop stops: the exception that ended it, if any, the
      state at that moment and the program counter of the last opcode. */
  datatype Final = Final(err: Option<Error>, st: State, pc: int)

  /** What `run` leaves: the exception, the value shown at the end, the state
      and the program counter. */
  datatype Finish = Finish(err: Option<Error>, shown: Option<Value>, st: State, pc: int)

  /** One pass of the loop body at `pc`: the exception the table lookup or
      the handler raised, if any, the state it left, and the handler's step. */
  datatype Turn = Turn(err: Option<Error>, st: State, skip: nat)

  /** Look up the opcode at `pc` in the handler table and run its handler;
      a handler that returns normally never steps past the end of the code. */
  function Step(code: seq<Value>, pc: int, st: State): (t: Turn)
    requires 0 <= pc < |code|
    ensures t.err.None? ==> 1 <= t.skip && pc + t.skip <= |code|
  {
    match Lookup(code[pc])
    case Err(e) => Turn(Some(e), st, 0)
    case Ok(h) =>
      var o := Handle(h, code, pc, st);
      if o.err.Some? then Turn(o.err, o.st, Skip(h))
      else
        StepStaysInCode(h, code, pc, st);
        Turn(None, o.st, Skip(h))
  }

  /** The dispatch loop from `pc`: one step after another until the end of
      the code or an exception. */
  function Exec(code: seq<Value>, pc: int, st: State): (f: Final)
    requires 0 <= pc <= |code|
    ensures pc <= f.pc <= |code|
    decreases |code| - pc
  {
    if pc == |code| then Final(None, st, pc)
    else
      var t := Step(code, pc, st);
      if t.err.Some? then Final(t.err, t.st, pc) else Exec(code, pc + t.skip, t.st)
  }

  /** `run(code)` on a machine in state `st`: a fresh operand stack, the
      loop, then the top of the stack shown and popped unless the loop
      raised. */
  function RunSpec(code: seq<Value>, st: State): (r: Finish)
    ensures r.err.None? ==> r.pc == |code|
    ensures r.err.Some? ==> 0 <= r.pc < |code| && r.shown.None?
  {
    ExecStops(code, 0, st.(stack := []));
    var f := Exec(code, 0, st.(stack := []));
    if f.err.None? && f.st.stack != [] then
      Finish(None, Some(f.st.stack[|f.st.stack| - 1]), f.st.(stack := f.st.stack[..|f.st.stack| - 1]), f.pc)
    else Finish(f.err, None, f.st, f.pc)
  }

  /** `VM.run`. */
  method Run(vm: VM, code: seq<Value>) returns (err: Option<Error>, shown: Option<Value>)
    modifies vm
    ensures Finish(err, shown, vm.Snapshot(), vm.pc) == RunSpec(code, old(vm.Snapshot()))
    ensures vm.code == code
  {
    vm.code := code;
    vm.pc := 0;
    vm.stack := [];
    ghost var start := vm.Snapshot();
    var length := |vm.code|;
    while vm.pc != length
      invariant vm.code == code && length == |code|
      invariant 0 <= vm.pc <= length
      invariant Exec(code, vm.pc, vm.Snapshot()) == Exec(code, 0, start)
      decreases length - vm.pc
    {
      var word := vm.Pcval(0);
      var h := Lookup(word.value);
      if h.Err? {
        return Some(h.error), None;
      }
      ghost var before := vm.Snapshot();
      var skip, e := Dispatch(vm, h.value);
      if e.Some? {
        return e, None;
      }
      StepStaysInCode(h.value, code, vm.pc, before);
      vm.pc := vm.pc + skip;
    }
    if vm.Size() > 0 {
      shown := Some(vm.stack[|vm.stack| - 1]);
      vm.stack := vm.stack[..|vm.stack| - 1];
    } else {
      shown := None;
    }
    err := None;
  }

  // Properties of the loop

  /** A loop that raised stopped inside the code at or after where it
      started; one that did not ran to exactly the end, never past it. */
  lemma {:induction false} ExecStops(code: seq<Value>, pc: int, st: State)
    requires 0 <= pc <= |code|
    ensures Exec(code, pc, st).err.None? ==> Exec(code, pc, st).pc == |code|
    ensures Exec(code, pc, st).err.Some? ==> pc <= Exec(code, pc, st).pc < |code|
    decreases |code| - pc
  {
    if pc < |code| {
      var t := Step(code, pc, st);
      if t.err.None? {
        ExecStops(code, pc + t.skip, t.st);
      }
    }
  }

  /** A handler reads no more of the code than the operand its step skips,
      so two programs that agree there give the same outcome. */
  lemma {:induction false} HandleReadsOperand(h: Handler, code: seq<Value>, pc: int, code2: seq<Value>, pc2: int, st: State)
    requires Skip(h) == 2 ==> CodeAt(code, pc + 1) == CodeAt(code2, pc2 + 1)
    ensures Handle(h, code, pc, st) == Handle(h, code2, pc2, st)
  {
  }

  /** Running the second half of `c1 + c2` is running `c2`, with program
      counters moved by `|c1|`. */
  lemma {:induction false} ExecSuffix(c1: seq<Value>, c2: seq<Value>, q: int, st: State)
    requires 0 <= q <= |c2|
    ensures var f := Exec(c2, q, st);
      Exec(c1 + c2, |c1| + q, st) == Final(f.err, f.st, f.pc + |c1|)
    decreases |c2| - q
  {
    if q < |c2| {
      StepShift(c1, c2, q, st);
      var t := Step(c2, q, st);
      if t.err.None? {
        ExecSuffix(c1, c2, q + t.skip, t.st);
      }
    }
  }

  /** A step reads only its own opcode and operand, so it is the same in
      `c2` as at the matching place in `c1 + c2`. */
  lemma {:induction false} StepShift(c1: seq<Value>, c2: seq<Value>, q: int, st: State)
    requires 0 <= q < |c2|
    ensures Step(c1 + c2, |c1| + q, st) == Step(c2, q, st)
  {
    var c := c1 + c2;
    assert c[|c1| + q] == c2[q];
    if Lookup(c2[q]).Ok? {
      assert CodeAt(c, |c1| + q + 1) == CodeAt(c2, q + 1);
      HandleReadsOperand(Lookup(c2[q]).value, c, |c1| + q, c2, q, st);
    }
  }

  /** Code runs piece by piece: when `c1` runs to its end without raising,
      running `c1 + c2` is running `c2` from the state `c1` left. */
  lemma {:induction false} ExecAppend(c1: seq<Value>, c2: seq<Value>, pc: int, st: State)
    requires 0 <= pc <= |c1|
    requires Exec(c1, pc, st).err.None?
    ensures var f := Exec(c2, 0, Exec(c1, pc, st).st);
      Exec(c1 + c2, pc, st) == Final(f.err, f.st, f.pc + |c1|)
    decreases |c1| - pc
  {
    if pc == |c1| {
      ExecSuffix(c1, c2, 0, st);
    } else {
      StepPrefix(c1, c2, pc, st);
      var t := Step(c1, pc, st);
      ExecAppend(c1, c2, pc + t.skip, t.st);
    }
  }

  /** A step that returns normally inside `c1` is the same in `c1 + c2`. */
  lemma {:induction false} StepPrefix(c1: seq<Value>, c2: seq<Value>, pc: int, st: State)
    requires 0 <= pc < |c1| && Step(c1, pc, st).err.None?
    ensures Step(c1 + c2, pc, st) == Step(c1, pc, st)
  {
    var c := c1 + c2;
    assert c[pc] == c1[pc];
    var h := Lookup(c1[pc]).value;
    StepStaysInCode(h, c1, pc, st);
    if Skip(h) == 2 {
      assert CodeAt(c1, pc + 1).Ok?;
      assert CodeAt(c, pc + 1) == CodeAt(c1, pc + 1);
    }
    HandleReadsOperand(h, c, pc, c1, pc, st);
  }

  /** Definitions outlive the run that made them: a program that pushes `v`
      and binds `name` to it shows nothing, and a later program that finds
      `name` shows `v`. */
  lemma {:induction false} DefinitionsPersist(st: State, v: Value, name: Value)
    ensures var first := RunSpec([Int(AtomOpcode), v, Int(DefineOpcode), name], st);
      first.err.None? && first.shown.None? && first.st.defs == st.defs[name := v]
      && RunSpec([Int(FindOpcode), name], first.st) == Finish(None, Some(v), first.st, 2)
  {
    var code := [Int(AtomOpcode), v, Int(DefineOpcode), name];
    var s0 := st.(stack := []);
    var s1 := s0.(stack := [v]);
    var s2 := s0.(defs := st.defs[name := v]);
    assert Exec(code, 4, s2) == Final(None, s2, 4);
    assert Exec(code, 2, s1) == Final(None, s2, 4);
    assert Exec(code, 0, s0) == Final(None, s2, 4);
    var find := [Int(FindOpcode), name];
    var t1 := s2.(stack := [v]);
    assert Exec(find, 2, t1) == Final(None, t1, 2);
    assert Exec(find, 0, s2) == Final(None, t1, 2);
    assert t1.stack[..0] == [];
  }
}
