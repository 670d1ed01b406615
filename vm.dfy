/**
 * The state of the stack machine of src/vm.py: the operand stack, the stack
 * of argument-start markers, the user definitions, the code being run and
 * its program counter. `cells` numbers the next cons cell a built-in
 * allocates, standing in for Python object identity.
 */
module Vm {
  import opened Values
  import Parse

  /** Everything a handler or a built-in reads or writes besides the code. */
  datatype State = State(stack: seq<Value>, argstarts: seq<nat>, defs: map<Value, Value>, cells: nat)

  /** What a handler or a built-in leaves: the exception it raised, if any,
      and the state at that moment (Python pops before it raises). */
  datatype Outcome = Outcome(err: Option<Error>, st: State)

  /** The Python functions the native table points at. */
  datatype NativeFn = Add | Sub | Mul | Div | Log | Eqq | Atomq | Nilq | ConsFn | List | Car | Cdr

  /** The VM's table of native functions, by name. */
  const Natives: map<string, NativeFn> := map[
    "+" := Add, "-" := Sub, "*" := Mul, "/" := Div, "log" := Log,
    "eq?" := Eqq, "atom?" := Atomq, "nil?" := Nilq, "cons" := ConsFn,
    "list" := List, "car" := Car, "cdr" := Cdr]

  /** Every name in the compiler's built-in table has a native function;
      the VM has one more, `log`. */
  lemma NativesCoverBuiltins()
    ensures Natives.Keys == Parse.Fns.Keys + {"log"}
    ensures "log" !in Parse.Fns
  {
    assert "log" !in Parse.Fns.Keys by {
      assert "log" != "list" && "log" != "+" && "log" != "-" && "log" != "*" && "log" != "/";
      assert "log" != "car" && "log" != "cdr" && "log" != "cons";
      assert "log" != "eq?" && "log" != "atom?" && "log" != "nil?";
    }
  }

  /** The word at position `i` of `code`; a position past the end raises
      IndexError. */
  function CodeAt(code: seq<Value>, i: int): (r: Result<Value>)
    ensures r.Ok? <==> 0 <= i < |code|
    ensures r.Ok? ==> r.value == code[i]
  {
    if 0 <= i < |code| then Ok(code[i]) else Err(IndexError)
  }

  class VM {
    var stack: seq<Value>
    var argstarts: seq<nat>
    var defs: map<Value, Value>
    var code: seq<Value>
    var pc: int
    var cells: nat

    /** A new machine: nothing on either stack, nothing defined, no code. */
    constructor ()
      ensures stack == [] && argstarts == [] && defs == map[]
      ensures code == [] && pc == 0 && cells == 0
    {
      stack := [];
      argstarts := [];
      defs := map[];
      code := [];
      pc := 0;
      cells := 0;
    }

    /** The fields handlers and built-ins work on. */
    function Snapshot(): State
      reads this
    {
      State(stack, argstarts, defs, cells)
    }

    /** `pcval(offset)`: the word `offset` places past the program counter;
        a position past the end raises IndexError. */
    function Pcval(offset: nat): (r: Result<Value>)
      reads this
      ensures r == CodeAt(code, pc + offset)
    {
      CodeAt(code, pc + offset)
    }

    /** `size()`: the depth of the operand stack. */
    function Size(): (n: nat)
      reads this
      ensures n == |stack|
    {
      |stack|
    }
  }
}
