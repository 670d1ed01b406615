/**
 * The compiler of src/parse.py: it turns one prefix-notation tree into a flat
 * postfix word list. `Compile` and its companions state what `parse` and
 * `quote` produce, threading the parser's persistent list of jump-patch
 * positions; the `Parser` class is the imperative compiler, whose `cond`
 * branch builds its result in place and patches it by index.
 */
module Parse {
  import opened Values
  import Cons

  /** The opcodes the compiler emits. The first five are those of the VM;
      `Jif`, `Jump`, `UpDis` and `DownDis` have no number or handler there. */
  datatype Opcode = Atom | Call | Define | Find | StartArgs | Jif | Jump | UpDis | DownDis

  /** One word of compiled code: an opcode, an inline operand, or a jump offset. */
  datatype Word = Op(op: Opcode) | Arg(v: Value) | Off(n: int)

  /** The built-in table: name to arity, -1 marking a variadic built-in. */
  const Fns: map<string, int> := map[
    "+" := -1, "-" := -1, "*" := -1, "/" := -1,
    "eq?" := 2, "atom?" := 1, "nil?" := 1, "cons" := 2,
    "list" := -1, "car" := 1, "cdr" := 1]

  /** No special form shares its name with a built-in. */
  lemma SpecialFormsAreNotBuiltins()
    ensures "quote" !in Fns && "define" !in Fns && "dis" !in Fns && "cond" !in Fns
  {
    assert "quote" != "list" && "quote" != "cons" && "quote" != "car" && "quote" != "cdr";
    assert "define" != "list" && "define" != "cons" && "define" != "car" && "define" != "cdr";
  }

  /** The result of compiling, with the parser's patch list afterwards (which
      an exception leaves as it was when raised). */
  datatype Out = Out(code: Result<seq<Word>>, patches: seq<nat>)

  /** A non-cell atom: a symbol is looked up by name, anything else pushed as is. */
  function AtomCode(e: Value): (r: seq<Word>)
    requires !e.Pair?
    ensures |r| == 2 && r[1] == Arg(e)
    ensures r[0] == Op(Find) <==> e.Sym?
    ensures r[0] in {Op(Find), Op(Atom)}
  {
    if e.Sym? then [Op(Find), Arg(e)] else [Op(Atom), Arg(e)]
  }

  /** The objects `for pair in x` visits: the elements of a cell, the
      one-character strings of a string; anything else is not iterable. */
  function Clauses(x: Value): (r: Result<seq<Value>>)
    ensures r.Ok? ==> forall k :: 0 <= k < |r.value| ==> Size(r.value[k]) <= Size(x)
  {
    match x
    case Pair(_, _, _) => Ok(Cons.Elements(x))
    case Sym(s) => Ok(seq(|s|, k requires 0 <= k < |s| => Sym([s[k]])))
    case _ => Err(TypeError)
  }

  /** The words of `code` with the operand at every position in `patches`
      replaced by its relative offset to the end of `code`; a position past
      the end raises IndexError. */
  function Patch(code: seq<Word>, patches: seq<nat>): (r: Result<seq<Word>>)
    ensures r.Ok? <==> forall k :: 0 <= k < |patches| ==> patches[k] < |code|
    ensures r.Ok? ==> |r.value| == |code| && forall i :: 0 <= i < |code| && i !in patches ==> r.value[i] == code[i]
    ensures r.Err? ==> r.error == IndexError
  {
    if exists k :: 0 <= k < |patches| && patches[k] >= |code| then Err(IndexError)
    else Ok(seq(|code|, i requires 0 <= i < |code| => if i in patches then Off(|code| - i + 1) else code[i]))
  }

  /** `parse(e)` started with patch list `p`: an atom, one of the special
      forms, a built-in call, or an unknown function. Every branch only ever
      appends to the patch list. */
  function Compile(e: Value, p: seq<nat>): (o: Out)
    ensures p <= o.patches
    decreases Size(e), 3
  {
    if !e.Pair? then Out(Ok(AtomCode(e)), p)
    else if e.car == Sym("quote") then CompileQuote(e, p)
    else if e.car == Sym("define") then CompileDefine(e, p)
    else if e.car == Sym("dis") then CompileDis(e, p)
    else if e.car == Sym("cond") then CompileCond(e, p)
    else CompileCall(e, p)
  }

  /** `(quote E)`: the code that quotes E. */
  function CompileQuote(e: Value, p: seq<nat>): (o: Out)
    requires e.Pair?
    ensures p <= o.patches
    decreases Size(e), 2
  {
    SizeOfParts(e);
    match Cons.Length(e)
    case None => Out(Err(TypeError), p)
    case Some(n) =>
      if n != 2 then Out(Err(ArityError), p)
      else if !e.cdr.Pair? then Out(Err(AttributeError), p)
      else QuoteCode(e.cdr.car, p)
  }

  /** `(define NAME E)`: the code of E, then DEFINE with the name inline. */
  function CompileDefine(e: Value, p: seq<nat>): (o: Out)
    requires e.Pair?
    ensures p <= o.patches
    decreases Size(e), 2
  {
    SizeOfParts(e);
    match Cons.Length(e)
    case None => Out(Err(TypeError), p)
    case Some(n) =>
      if n != 3 then Out(Err(ArityError), p)
      else if !e.cdr.Pair? then Out(Err(AttributeError), p)
      else if !e.cdr.car.Sym? then Out(Err(InvalidSymbol), p)
      else if !e.cdr.cdr.Pair? then Out(Err(AttributeError), p)
      else
        var v := Compile(e.cdr.cdr.car, p);
        if v.code.Err? then v else Out(Ok(v.code.value + [Op(Define), Arg(e.cdr.car)]), v.patches)
  }

  /** `(dis E)`: the code of E between UP_DIS and DOWN_DIS. */
  function CompileDis(e: Value, p: seq<nat>): (o: Out)
    requires e.Pair?
    ensures p <= o.patches
    decreases Size(e), 2
  {
    SizeOfParts(e);
    match Cons.Length(e)
    case None => Out(Err(TypeError), p)
    case Some(n) =>
      if n != 2 then Out(Err(ArityError), p)
      else if !e.cdr.Pair? then Out(Err(AttributeError), p)
      else
        var b := Compile(e.cdr.car, p);
        if b.code.Err? then b else Out(Ok([Op(UpDis)] + b.code.value + [Op(DownDis)]), b.patches)
  }

  /** `(cond CLAUSES)`: the clauses one after another, then every pending
      JUMP operand patched. */
  function CompileCond(e: Value, p: seq<nat>): (o: Out)
    requires e.Pair?
    ensures p <= o.patches
    decreases Size(e), 2
  {
    SizeOfParts(e);
    if !e.cdr.Pair? then Out(Err(AttributeError), p)
    else
      match Clauses(e.cdr.car)
      case Err(err) => Out(Err(err), p)
      case Ok(cls) =>
        var o := CondClauses(cls, 0, [], p, Size(e));
        if o.code.Err? then o else Out(Patch(o.code.value, o.patches), o.patches)
  }

  /** Any other head: a call of a built-in (the arity check, START_ARGS for
      a variadic built-in, the arguments' code, then CALL with the name
      inline), or an unknown function. */
  function CompileCall(e: Value, p: seq<nat>): (o: Out)
    requires e.Pair?
    ensures p <= o.patches
    decreases Size(e), 2
  {
    if !(e.car.Sym? && e.car.name in Fns) then Out(Err(UnknownFunction), p)
    else
    SizeOfParts(e);
    var arity := Fns[e.car.name];
    if arity != -1 && Cons.Length(e).None? then Out(Err(TypeError), p)
    else if arity != -1 && Cons.Length(e).value - 1 != arity then Out(Err(ArityError), p)
    else
      var args := if e.cdr.Pair? then Cons.ReversedElements(e.cdr) else [];
      var o := ArgsCode(args, 0, if arity == -1 then [Op(StartArgs)] else [], p, Size(e));
      if o.code.Err? then o else Out(Ok(o.code.value + [Op(Call), Arg(e.car)]), o.patches)
  }

  /** The clause loop of the `cond` branch, from clause `i` on, with `acc` the
      code built so far: each clause compiles to its condition, a JIF whose
      offset is patched at once, its expression, and a JUMP whose operand
      position joins the patch list. */
  function CondClauses(cls: seq<Value>, i: nat, acc: seq<Word>, p: seq<nat>, bound: nat): (o: Out)
    requires forall k :: 0 <= k < |cls| ==> Size(cls[k]) < bound
    ensures p <= o.patches
    decreases bound, 1, |cls| - i
  {
    if i >= |cls| then Out(Ok(acc), p)
    else
      var o := CondClause(cls[i], acc, p);
      if o.code.Err? then o else CondClauses(cls, i + 1, o.code.value, o.patches, bound)
  }

  /** One clause `pair` of a `cond`, appended to `acc`. */
  function CondClause(pair: Value, acc: seq<Word>, p: seq<nat>): (o: Out)
    ensures p <= o.patches
    decreases Size(pair), 3
  {
    if !pair.Pair? then Out(Err(CondSyntax), p)
    else
      SizeOfParts(pair);
      match Cons.Length(pair)
      case None => Out(Err(TypeError), p)
      case Some(n) =>
        if n != 2 then Out(Err(CondSyntax), p)
        else if !pair.cdr.Pair? then Out(Err(AttributeError), p)
        else
          var c := Compile(pair.car, p);
          if c.code.Err? then c
          else
            var x := Compile(pair.cdr.car, c.patches);
            if x.code.Err? then x
            else
              var r := ClauseCode(acc, c.code.value, x.code.value);
              Out(Ok(r), x.patches + [|r| - 1])
  }

  /** The code of one clause after `acc`: the condition `c`, a JIF whose
      offset is patched at once, the expression `x`, and a JUMP whose offset
      is left to patch. */
  function ClauseCode(acc: seq<Word>, c: seq<Word>, x: seq<Word>): seq<Word>
  {
    var withJif := acc + c + [Op(Jif), Off(0)];
    var jifpatch := |withJif| - 1;
    var withJump := withJif + x + [Op(Jump), Off(0)];
    withJump[jifpatch := Off(|withJump| - jifpatch + 1)]
  }

  /** The argument loop of a built-in call: the code of each argument in
      `args` (already in reverse source order), appended to `acc`. */
  function ArgsCode(args: seq<Value>, i: nat, acc: seq<Word>, p: seq<nat>, bound: nat): (o: Out)
    requires forall k :: 0 <= k < |args| ==> Size(args[k]) < bound
    ensures p <= o.patches
    decreases bound, 1, |args| - i
  {
    if i >= |args| then Out(Ok(acc), p)
    else
      var a := Compile(args[i], p);
      if a.code.Err? then a else ArgsCode(args, i + 1, acc + a.code.value, a.patches, bound)
  }

  /** A clause of two elements: its condition, then its expression, then
      the clause code. */
  lemma {:induction false} ClauseUnfold(pair: Value, acc: seq<Word>, p: seq<nat>)
    requires pair.Pair? && Cons.Length(pair) == Some(2) && pair.cdr.Pair?
    ensures var c := Compile(pair.car, p);
      CondClause(pair, acc, p)
        == if c.code.Err? then c
           else
             var x := Compile(pair.cdr.car, c.patches);
             if x.code.Err? then x
             else Out(Ok(ClauseCode(acc, c.code.value, x.code.value)), x.patches + [|ClauseCode(acc, c.code.value, x.code.value)| - 1])
  {
  }

  /** One turn of the clause loop. */
  lemma {:induction false} ClausesStep(cls: seq<Value>, i: nat, acc: seq<Word>, p: seq<nat>, bound: nat)
    requires i < |cls|
    requires forall k :: 0 <= k < |cls| ==> Size(cls[k]) < bound
    ensures var o := CondClause(cls[i], acc, p);
      CondClauses(cls, i, acc, p, bound)
        == if o.code.Err? then o else CondClauses(cls, i + 1, o.code.value, o.patches, bound)
  {
  }

  /** One turn of the argument loop. */
  lemma {:induction false} ArgsStep(args: seq<Value>, i: nat, acc: seq<Word>, p: seq<nat>, bound: nat)
    requires i < |args|
    requires forall k :: 0 <= k < |args| ==> Size(args[k]) < bound
    ensures var a := Compile(args[i], p);
      ArgsCode(args, i, acc, p, bound)
        == if a.code.Err? then a else ArgsCode(args, i + 1, acc + a.code.value, a.patches, bound)
  {
  }

  /** `quote(e)`: an atom is pushed as data (a symbol is never looked up);
      `(unquote E)` compiles E normally; a cell quotes its cdr, then its car,
      then calls `cons`. */
  function QuoteCode(e: Value, p: seq<nat>): (o: Out)
    ensures p <= o.patches
    decreases Size(e), 1
  {
    if !e.Pair? then Out(Ok([Op(Atom), Arg(e)]), p)
    else
    SizeOfParts(e);
    if e.car == Sym("unquote") then
      match Cons.Length(e)
      case None => Out(Err(TypeError), p)
      case Some(n) =>
        if n != 2 then Out(Err(ArityError), p)
        else if !e.cdr.Pair? then Out(Err(AttributeError), p)
        else Compile(e.cdr.car, p)
    else
      var d := QuoteCode(e.cdr, p);
      if d.code.Err? then d
      else
        var a := QuoteCode(e.car, d.patches);
        if a.code.Err? then a
        else Out(Ok(d.code.value + a.code.value + [Op(Call), Arg(Sym("cons"))]), a.patches)
  }

  /** The loop that rewrites every recorded jump operand once the whole
      `cond` is known. */
  method PatchJumps(code: seq<Word>, patches: seq<nat>) returns (r: Result<seq<Word>>)
    ensures r == Patch(code, patches)
  {
    var result := code;
    var k := 0;
    while k < |patches|
      invariant 0 <= k <= |patches|
      invariant |result| == |code|
      invariant forall j :: 0 <= j < k ==> patches[j] < |code|
      invariant forall i :: 0 <= i < |code| ==> result[i] == if i in patches[..k] then Off(|code| - i + 1) else code[i]
    {
      var at := patches[k];
      if at >= |result| {
        return Err(IndexError);
      }
      result := result[at := Off(|result| - at + 1)];
      k := k + 1;
    }
    assert patches[..k] == patches;
    assert result == seq(|code|, i requires 0 <= i < |code| => if i in patches then Off(|code| - i + 1) else code[i]);
    return Ok(result);
  }

  class Parser {
    /** Positions of JUMP operands still to patch. The list persists across
        calls and is never cleared. */
    var jumppatches: seq<nat>

    constructor ()
      ensures jumppatches == []
    {
      jumppatches := [];
    }

    /** `parse(e)`. */
    method Parse(e: Value) returns (r: Result<seq<Word>>)
      modifies this
      ensures Out(r, jumppatches) == Compile(e, old(jumppatches))
      decreases Size(e), 3
    {
      if !e.Pair? {
        return Ok(AtomCode(e));
      }
      SizeOfParts(e);
      var fn := e.car;
      if fn == Sym("quote") {
        var n := Cons.Length(e);
        if n.None? {
          return Err(TypeError);
        } else if n.value != 2 {
          return Err(ArityError);
        } else if !e.cdr.Pair? {
          return Err(AttributeError);
        }
        r := Quote(e.cdr.car);
      } else if fn == Sym("define") {
        var n := Cons.Length(e);
        if n.None? {
          return Err(TypeError);
        } else if n.value != 3 {
          return Err(ArityError);
        } else if !e.cdr.Pair? {
          return Err(AttributeError);
        }
        var name := e.cdr.car;
        if !name.Sym? {
          return Err(InvalidSymbol);
        } else if !e.cdr.cdr.Pair? {
          return Err(AttributeError);
        }
        var value := Parse(e.cdr.cdr.car);
        if value.Err? {
          return value;
        }
        r := Ok(value.value + [Op(Define), Arg(name)]);
      } else if fn == Sym("dis") {
        var n := Cons.Length(e);
        if n.None? {
          return Err(TypeError);
        } else if n.value != 2 {
          return Err(ArityError);
        } else if !e.cdr.Pair? {
          return Err(AttributeError);
        }
        var body := Parse(e.cdr.car);
        if body.Err? {
          return body;
        }
        r := Ok([Op(UpDis)] + body.value + [Op(DownDis)]);
      } else if fn == Sym("cond") {
        r := ParseCond(e);
      } else if fn.Sym? && fn.name in Fns {
        r := ParseCall(e);
      } else {
        r := Err(UnknownFunction);
      }
    }

    /** The `cond` branch of `parse`. */
    method ParseCond(e: Value) returns (r: Result<seq<Word>>)
      requires e.Pair? && e.car == Sym("cond")
      modifies this
      ensures Out(r, jumppatches) == CompileCond(e, old(jumppatches))
      decreases Size(e), 2
    {
      SizeOfParts(e);
      if !e.cdr.Pair? {
        return Err(AttributeError);
      }
      var clauses := Clauses(e.cdr.car);
      if clauses.Err? {
        return Err(clauses.error);
      }
      var cls := clauses.value;
      var result: seq<Word> := [];
      ghost var target := CondClauses(cls, 0, result, old(jumppatches), Size(e));
      var i := 0;
      while i < |cls|
        invariant 0 <= i <= |cls|
        invariant target == CondClauses(cls, i, result, jumppatches, Size(e))
      {
        ClausesStep(cls, i, result, jumppatches, Size(e));
        var o := ParseClause(cls[i], result);
        if o.Err? {
          return o;
        }
        result := o.value;
        i := i + 1;
      }
      r := PatchJumps(result, jumppatches);
    }

    /** One iteration of the clause loop of `cond`. */
    method ParseClause(pair: Value, acc: seq<Word>) returns (r: Result<seq<Word>>)
      modifies this
      ensures Out(r, jumppatches) == CondClause(pair, acc, old(jumppatches))
      decreases Size(pair), 4
    {
      if !pair.Pair? {
        return Err(CondSyntax);
      }
      SizeOfParts(pair);
      var n := Cons.Length(pair);
      if n.None? {
        return Err(TypeError);
      } else if n.value != 2 {
        return Err(CondSyntax);
      } else if !pair.cdr.Pair? {
        return Err(AttributeError);
      }
      ClauseUnfold(pair, acc, jumppatches);
      var result := acc;
      var c := Parse(pair.car);
      if c.Err? {
        return c;
      }
      result := result + c.value + [Op(Jif), Off(0)];
      var jifpatch := |result| - 1;
      var x := Parse(pair.cdr.car);
      if x.Err? {
        return x;
      }
      result := result + x.value + [Op(Jump), Off(0)];
      jumppatches := jumppatches + [|result| - 1];
      result := result[jifpatch := Off(|result| - jifpatch + 1)];
      r := Ok(result);
    }

    /** The built-in call branch of `parse`. */
    method ParseCall(e: Value) returns (r: Result<seq<Word>>)
      requires e.Pair? && e.car.Sym? && e.car.name in Fns
      modifies this
      ensures Out(r, jumppatches) == CompileCall(e, old(jumppatches))
      decreases Size(e), 2
    {
      SizeOfParts(e);
      var fn := e.car;
      var arity := Fns[fn.name];
      var result: seq<Word> := [];
      if arity == -1 {
        result := [Op(StartArgs)];
      } else {
        var n := Cons.Length(e);
        if n.None? {
          return Err(TypeError);
        } else if n.value - 1 != arity {
          return Err(ArityError);
        }
      }
      var args := if e.cdr.Pair? then Cons.ReversedElements(e.cdr) else [];
      ghost var target := ArgsCode(args, 0, result, old(jumppatches), Size(e));
      var i := 0;
      while i < |args|
        invariant 0 <= i <= |args|
        invariant target == ArgsCode(args, i, result, jumppatches, Size(e))
      {
        ArgsStep(args, i, result, jumppatches, Size(e));
        var a := Parse(args[i]);
        if a.Err? {
          return a;
        }
        result := result + a.value;
        i := i + 1;
      }
      r := Ok(result + [Op(Call), Arg(fn)]);
    }

    /** `quote(e)`. */
    method Quote(e: Value) returns (r: Result<seq<Word>>)
      modifies this
      ensures Out(r, jumppatches) == QuoteCode(e, old(jumppatches))
      decreases Size(e), 1
    {
      if !e.Pair? {
        return Ok([Op(Atom), Arg(e)]);
      }
      SizeOfParts(e);
      if e.car == Sym("unquote") {
        var n := Cons.Length(e);
        if n.None? {
          return Err(TypeError);
        } else if n.value != 2 {
          return Err(ArityError);
        } else if !e.cdr.Pair? {
          return Err(AttributeError);
        }
        r := Parse(e.cdr.car);
        return;
      }
      var d := Quote(e.cdr);
      if d.Err? {
        return d;
      }
      var a := Quote(e.car);
      if a.Err? {
        return a;
      }
      r := Ok(d.value + a.value + [Op(Call), Arg(Sym("cons"))]);
    }
  }

  // Properties of quoting

  /** The number of cells in a tree. */
  function Cells(v: Value): nat
  {
    if v.Pair? then 1 + Cells(v.car) + Cells(v.cdr) else 0
  }

  /** No cell of `v` is headed by `unquote`. */
  predicate NoUnquote(v: Value)
  {
    v.Pair? ==> v.car != Sym("unquote") && NoUnquote(v.car) && NoUnquote(v.cdr)
  }

  /** How many times the word `w` occurs in `code`. */
  function Count(code: seq<Word>, w: Word): nat
  {
    if code == [] then 0 else (if code[0] == w then 1 else 0) + Count(code[1..], w)
  }

  lemma {:induction false} CountAppend(a: seq<Word>, b: seq<Word>, w: Word)
    ensures Count(a + b, w) == Count(a, w) + Count(b, w)
  {
    if a != [] {
      assert (a + b)[0] == a[0] && (a + b)[1..] == a[1..] + b;
      CountAppend(a[1..], b, w);
    } else {
      assert a + b == b;
    }
  }

  /** Quoting a tree without `unquote` never fails and never touches the
      patch list; a tree of c cells becomes 4c+2 words holding one call per
      cell, and no symbol in it is ever looked up. */
  lemma {:induction false} QuoteWithoutUnquote(e: Value, p: seq<nat>)
    requires NoUnquote(e)
    ensures QuoteCode(e, p).code.Ok? && QuoteCode(e, p).patches == p
    ensures |QuoteCode(e, p).code.value| == 4 * Cells(e) + 2
    ensures Count(QuoteCode(e, p).code.value, Op(Call)) == Cells(e)
    ensures Op(Find) !in QuoteCode(e, p).code.value
    decreases e
  {
    if e.Pair? {
      QuoteWithoutUnquote(e.cdr, p);
      QuoteWithoutUnquote(e.car, p);
      var d := QuoteCode(e.cdr, p).code.value;
      var a := QuoteCode(e.car, p).code.value;
      CountAppend(d, a, Op(Call));
      var call := [Op(Call), Arg(Sym("cons"))];
      assert call[1..][1..] == [];
      assert Count(call, Op(Call)) == 1;
      CountAppend(d + a, call, Op(Call));
      assert QuoteCode(e, p).code.value == d + a + [Op(Call), Arg(Sym("cons"))];
    } else {
      var c := [Op(Atom), Arg(e)];
      assert c[1..] == [Arg(e)] && [Arg(e)][1..] == [];
      assert Count([Arg(e)], Op(Call)) == 0;
      assert Count(c, Op(Call)) == 0;
    }
  }

  // Compiling without `cond`

  /** No subtree of `v` is the symbol `cond`. */
  predicate NoCond(v: Value)
  {
    v != Sym("cond") && (v.Pair? ==> NoCond(v.car) && NoCond(v.cdr))
  }

  /** `code` holds neither a JIF nor a JUMP opcode. */
  predicate JumpFree(code: seq<Word>)
  {
    Op(Jif) !in code && Op(Jump) !in code
  }

  lemma {:induction false} NoCondElements(c: Value)
    requires c.Pair? && NoCond(c)
    ensures forall v :: v in Cons.Elements(c) ==> NoCond(v)
    decreases Size(c)
  {
    if c.cdr.Pair? {
      NoCondElements(c.cdr);
    }
  }

  /** Code from a tree without `cond` holds no jump and leaves the patch list
      as it was. */
  lemma {:induction false} CompileWithoutCond(e: Value, p: seq<nat>)
    requires NoCond(e)
    ensures Compile(e, p).patches == p
    ensures Compile(e, p).code == Compile(e, []).code
    ensures Compile(e, p).code.Ok? ==> JumpFree(Compile(e, p).code.value)
    decreases Size(e), 3
  {
    if e.Pair? {
      SizeOfParts(e);
      if e.car == Sym("quote") {
        if e.cdr.Pair? {
          QuoteWithoutCond(e.cdr.car, p);
          QuoteWithoutCond(e.cdr.car, []);
        }
      } else if e.car == Sym("define") {
        if e.cdr.Pair? && e.cdr.cdr.Pair? {
          assert NoCond(e.cdr) && NoCond(e.cdr.cdr);
          CompileWithoutCond(e.cdr.cdr.car, p);
          CompileWithoutCond(e.cdr.cdr.car, []);
        }
      } else if e.car == Sym("dis") {
        if e.cdr.Pair? {
          CompileWithoutCond(e.cdr.car, p);
          CompileWithoutCond(e.cdr.car, []);
        }
      } else if e.car != Sym("cond") {
        CallWithoutCond(e, p);
      }
    }
  }

  lemma {:induction false} CallWithoutCond(e: Value, p: seq<nat>)
    requires e.Pair? && NoCond(e)
    requires e.car != Sym("quote") && e.car != Sym("define") && e.car != Sym("dis") && e.car != Sym("cond")
    ensures Compile(e, p).patches == p
    ensures Compile(e, p).code == Compile(e, []).code
    ensures Compile(e, p).code.Ok? ==> JumpFree(Compile(e, p).code.value)
    decreases Size(e), 2
  {
    assert Compile(e, p) == CompileCall(e, p) && Compile(e, []) == CompileCall(e, []);
    SizeOfParts(e);
    if !(e.car.Sym? && e.car.name in Fns) {
      return;
    }
    var arity := Fns[e.car.name];
    if arity == -1 || Cons.Length(e) == Some(arity + 1) {
      var args := if e.cdr.Pair? then Cons.ReversedElements(e.cdr) else [];
      var start := if arity == -1 then [Op(StartArgs)] else [];
      if e.cdr.Pair? {
        NoCondElements(e.cdr);
      }
      ArgsWithoutCond(args, 0, start, p, Size(e));
      ArgsWithoutCond(args, 0, start, [], Size(e));
      var o := ArgsCode(args, 0, start, p, Size(e));
      var o0 := ArgsCode(args, 0, start, [], Size(e));
      assert CompileCall(e, p) == if o.code.Err? then o else Out(Ok(o.code.value + [Op(Call), Arg(e.car)]), o.patches);
      assert CompileCall(e, []) == if o0.code.Err? then o0 else Out(Ok(o0.code.value + [Op(Call), Arg(e.car)]), o0.patches);
    }
  }

  lemma {:induction false} ArgsWithoutCond(args: seq<Value>, i: nat, acc: seq<Word>, p: seq<nat>, bound: nat)
    requires forall k :: 0 <= k < |args| ==> Size(args[k]) < bound && NoCond(args[k])
    requires JumpFree(acc)
    ensures ArgsCode(args, i, acc, p, bound).patches == p
    ensures ArgsCode(args, i, acc, p, bound).code == ArgsCode(args, i, acc, [], bound).code
    ensures ArgsCode(args, i, acc, p, bound).code.Ok? ==> JumpFree(ArgsCode(args, i, acc, p, bound).code.value)
    decreases bound, 1, |args| - i
  {
    if i < |args| {
      CompileWithoutCond(args[i], p);
      CompileWithoutCond(args[i], []);
      var a := Compile(args[i], p);
      if a.code.Ok? {
        ArgsWithoutCond(args, i + 1, acc + a.code.value, p, bound);
        ArgsWithoutCond(args, i + 1, acc + a.code.value, [], bound);
      }
    }
  }

  lemma {:induction false} QuoteWithoutCond(e: Value, p: seq<nat>)
    requires NoCond(e)
    ensures QuoteCode(e, p).patches == p
    ensures QuoteCode(e, p).code == QuoteCode(e, []).code
    ensures QuoteCode(e, p).code.Ok? ==> JumpFree(QuoteCode(e, p).code.value)
    decreases Size(e), 1
  {
    if e.Pair? {
      SizeOfParts(e);
      if e.car == Sym("unquote") {
        if e.cdr.Pair? {
          CompileWithoutCond(e.cdr.car, p);
          CompileWithoutCond(e.cdr.car, []);
        }
      } else {
        QuoteWithoutCond(e.cdr, p);
        QuoteWithoutCond(e.car, p);
        QuoteWithoutCond(e.cdr, []);
        QuoteWithoutCond(e.car, []);
      }
    }
  }

  // Built-in calls

  /** Each of `args` compiled by a fresh parser, concatenated in order; the
      first failure is the result. */
  function Concat(args: seq<Value>): Result<seq<Word>>
  {
    if args == [] then Ok([])
    else
      match Compile(args[0], []).code
      case Err(err) => Err(err)
      case Ok(c) =>
        match Concat(args[1..])
        case Err(err) => Err(err)
        case Ok(rest) => Ok(c + rest)
  }

  lemma {:induction false} ArgsConcat(args: seq<Value>, i: nat, acc: seq<Word>, p: seq<nat>, bound: nat)
    requires i <= |args|
    requires forall k :: 0 <= k < |args| ==> Size(args[k]) < bound && NoCond(args[k])
    ensures ArgsCode(args, i, acc, p, bound).patches == p
    ensures ArgsCode(args, i, acc, p, bound).code
      == match Concat(args[i..]) case Ok(c) => Ok(acc + c) case Err(err) => Err(err)
    decreases |args| - i
  {
    if i < |args| {
      CompileWithoutCond(args[i], p);
      CompileWithoutCond(args[i], []);
      assert args[i..][0] == args[i] && args[i..][1..] == args[i + 1..];
      var a := Compile(args[i], p);
      if a.code.Ok? {
        ArgsConcat(args, i + 1, acc + a.code.value, p, bound);
        if Concat(args[i + 1..]).Ok? {
          SeqAssoc(acc, a.code.value, Concat(args[i + 1..]).value);
        }
      }
    } else {
      assert args[i..] == [];
      assert acc + [] == acc;
    }
  }

  /** A call of a built-in: a fixed-arity built-in compiles only when its
      argument count is its arity, a variadic one whatever the count; the
      code is START_ARGS for a variadic built-in, then the code of each
      argument in reverse source order, then CALL with the name inline. */
  lemma {:induction false} CallShape(e: Value, p: seq<nat>)
    requires e.Pair? && e.car.Sym? && e.car.name in Fns && NoCond(e)
    ensures Compile(e, p).patches == p
    ensures Compile(e, p).code.Ok? ==> Fns[e.car.name] == -1 || Cons.Length(e) == Some(Fns[e.car.name] + 1)
    ensures Fns[e.car.name] == -1 || Cons.Length(e) == Some(Fns[e.car.name] + 1) ==>
      var args := if e.cdr.Pair? then Cons.ReversedElements(e.cdr) else [];
      var start := if Fns[e.car.name] == -1 then [Op(StartArgs)] else [];
      Compile(e, p).code
        == match Concat(args) case Ok(c) => Ok(start + c + [Op(Call), Arg(e.car)]) case Err(err) => Err(err)
  {
    assert Compile(e, p) == CompileCall(e, p) by {
      SpecialFormsAreNotBuiltins();
    }
    CallCodeShape(e, p);
  }

  lemma {:induction false} CallCodeShape(e: Value, p: seq<nat>)
    requires e.Pair? && e.car.Sym? && e.car.name in Fns && NoCond(e)
    ensures CompileCall(e, p).patches == p
    ensures CompileCall(e, p).code.Ok? ==> Fns[e.car.name] == -1 || Cons.Length(e) == Some(Fns[e.car.name] + 1)
    ensures Fns[e.car.name] == -1 || Cons.Length(e) == Some(Fns[e.car.name] + 1) ==>
      var args := if e.cdr.Pair? then Cons.ReversedElements(e.cdr) else [];
      var start := if Fns[e.car.name] == -1 then [Op(StartArgs)] else [];
      CompileCall(e, p).code
        == match Concat(args) case Ok(c) => Ok(start + c + [Op(Call), Arg(e.car)]) case Err(err) => Err(err)
  {
    SizeOfParts(e);
    var arity := Fns[e.car.name];
    var args := if e.cdr.Pair? then Cons.ReversedElements(e.cdr) else [];
    if e.cdr.Pair? {
      assert NoCond(e.cdr);
      NoCondElements(e.cdr);
    }
    var start := if arity == -1 then [Op(StartArgs)] else [];
    ArgsConcat(args, 0, start, p, Size(e));
    assert args[0..] == args;
  }

  /** The errors `parse` raises before compiling anything: `len()` of an
      improper list, a special form with the wrong number of parts, and a
      head that is neither a special form nor a built-in. */
  lemma FormErrors(e: Value, p: seq<nat>)
    requires e.Pair?
    ensures e.car in {Sym("quote"), Sym("define"), Sym("dis")} && Cons.Length(e).None?
      ==> Compile(e, p) == Out(Err(TypeError), p)
    ensures e.car in {Sym("quote"), Sym("dis")} && Cons.Length(e).Some? && Cons.Length(e).value != 2
      ==> Compile(e, p) == Out(Err(ArityError), p)
    ensures e.car == Sym("define") && Cons.Length(e).Some? && Cons.Length(e).value != 3
      ==> Compile(e, p) == Out(Err(ArityError), p)
    ensures e.car !in {Sym("quote"), Sym("define"), Sym("dis"), Sym("cond")} && !(e.car.Sym? && e.car.name in Fns)
      ==> Compile(e, p) == Out(Err(UnknownFunction), p)
  {
  }

  /** A built-in call that compiles at all passes its arity check, whatever
      its arguments hold. */
  lemma {:induction false} CallArity(e: Value, p: seq<nat>)
    requires e.Pair? && e.car.Sym? && e.car.name in Fns
    ensures Compile(e, p).code.Ok? ==> Fns[e.car.name] == -1 || Cons.Length(e) == Some(Fns[e.car.name] + 1)
  {
    SpecialFormsAreNotBuiltins();
    assert Compile(e, p) == CompileCall(e, p);
  }

  /** `(define NAME E)` with E free of `cond`: the code of E followed by
      DEFINE and the name when NAME is a symbol, InvalidSymbol otherwise. */
  lemma {:induction false} DefineShape(e: Value, p: seq<nat>)
    requires e.Pair? && e.car == Sym("define") && e.cdr.Pair? && e.cdr.cdr.Pair? && e.cdr.cdr.cdr == Nil
    requires NoCond(e.cdr.cdr.car)
    ensures Compile(e, p).patches == p
    ensures e.cdr.car.Sym? ==>
      Compile(e, p).code
        == match Compile(e.cdr.cdr.car, []).code
           case Ok(c) => Ok(c + [Op(Define), Arg(e.cdr.car)])
           case Err(err) => Err(err)
    ensures !e.cdr.car.Sym? ==> Compile(e, p).code == Err(InvalidSymbol)
  {
    assert Cons.Length(e.cdr.cdr) == Some(1);
    assert Cons.Length(e) == Some(3);
    CompileWithoutCond(e.cdr.cdr.car, p);
  }

  /** `(dis E)` with E free of `cond`: the code of E between UP_DIS and
      DOWN_DIS. */
  lemma {:induction false} DisShape(e: Value, p: seq<nat>)
    requires e.Pair? && e.car == Sym("dis") && e.cdr.Pair? && e.cdr.cdr == Nil && NoCond(e.cdr.car)
    ensures Compile(e, p).patches == p
    ensures Compile(e, p).code
      == match Compile(e.cdr.car, []).code
         case Ok(c) => Ok([Op(UpDis)] + c + [Op(DownDis)])
         case Err(err) => Err(err)
  {
    assert Cons.Length(e) == Some(2);
    CompileWithoutCond(e.cdr.car, p);
  }

  // Jump offsets of `cond`

  /** The JIF opcode at `i` carries an offset n that lands on the word just
      past a JUMP operand, with no other JUMP opcode in between. */
  predicate JifLands(code: seq<Word>, i: nat)
    requires i < |code|
  {
    i + 1 < |code| && code[i + 1].Off? && 2 <= code[i + 1].n && i + code[i + 1].n <= |code|
    && code[i + code[i + 1].n - 2] == Op(Jump)
    && forall j :: i < j < i + code[i + 1].n - 2 ==> code[j] != Op(Jump)
  }

  /** The shape the clause loop keeps: every JIF offset already lands, and
      the JUMP operands still to patch are exactly the positions in `patches`. */
  predicate Pending(code: seq<Word>, patches: seq<nat>)
  {
    (forall i :: 0 <= i < |code| && code[i] == Op(Jif) ==> JifLands(code, i))
    && (forall i :: 0 <= i < |code| && code[i] == Op(Jump) ==> i + 1 < |code| && i + 1 in patches)
    && (forall k :: k in patches ==> 1 <= k < |code| && code[k - 1] == Op(Jump) && code[k].Off?)
  }

  /** Where the parts of a clause lie in its code. */
  lemma {:induction false} ClauseCodeLayout(acc: seq<Word>, c: seq<Word>, x: seq<Word>)
    ensures var r := ClauseCode(acc, c, x); var jif := |acc| + |c|;
      && |r| == jif + |x| + 4
      && r[jif] == Op(Jif) && r[jif + 1] == Off(|r| - jif)
      && r[|r| - 2] == Op(Jump) && r[|r| - 1] == Off(0)
      && (forall j :: 0 <= j < |acc| ==> r[j] == acc[j])
      && (forall j :: |acc| <= j < jif ==> r[j] == c[j - |acc|])
      && (forall j :: jif + 2 <= j < |r| - 2 ==> r[j] == x[j - jif - 2])
  {
  }

  /** One clause of jump-free code keeps the loop's shape. */
  lemma {:induction false} ClauseCodeKeeps(acc: seq<Word>, c: seq<Word>, x: seq<Word>, p: seq<nat>)
    requires Pending(acc, p) && JumpFree(c) && JumpFree(x)
    ensures Pending(ClauseCode(acc, c, x), p + [|ClauseCode(acc, c, x)| - 1])
  {
    var r := ClauseCode(acc, c, x);
    var m := |r|;
    var jif := |acc| + |c|;
    ClauseCodeLayout(acc, c, x);
    assert JifLands(r, jif);
    forall i | 0 <= i < m && r[i] == Op(Jif)
      ensures JifLands(r, i)
    {
      if i < |acc| {
        assert acc[i] == Op(Jif) && JifLands(acc, i);
      }
    }
    forall i | 0 <= i < m && r[i] == Op(Jump)
      ensures i + 1 < m && i + 1 in p + [m - 1]
    {
      if i < |acc| {
        assert acc[i] == Op(Jump);
      }
    }
  }

  /** One clause free of `cond` keeps the loop's shape. */
  lemma {:induction false} CondClauseKeeps(pair: Value, acc: seq<Word>, p: seq<nat>)
    requires Pending(acc, p) && NoCond(pair)
    ensures CondClause(pair, acc, p).code.Ok? ==> Pending(CondClause(pair, acc, p).code.value, CondClause(pair, acc, p).patches)
  {
    if CondClause(pair, acc, p).code.Ok? {
      assert pair.Pair? && Cons.Length(pair) == Some(2) && pair.cdr.Pair?;
      SizeOfParts(pair);
      assert NoCond(pair.cdr);
      ClauseUnfold(pair, acc, p);
      CompileWithoutCond(pair.car, p);
      var c := Compile(pair.car, p);
      CompileWithoutCond(pair.cdr.car, c.patches);
      var x := Compile(pair.cdr.car, c.patches);
      var r := ClauseCode(acc, c.code.value, x.code.value);
      ClauseCodeKeeps(acc, c.code.value, x.code.value, p);
      assert x.patches == p;
      var o := CondClause(pair, acc, p);
      assert o.code.value == r && o.patches == p + [|r| - 1];
    }
  }

  lemma {:induction false} CondClausesKeep(cls: seq<Value>, i: nat, acc: seq<Word>, p: seq<nat>, bound: nat)
    requires forall k :: 0 <= k < |cls| ==> Size(cls[k]) < bound && NoCond(cls[k])
    requires Pending(acc, p)
    ensures CondClauses(cls, i, acc, p, bound).code.Ok? ==>
      Pending(CondClauses(cls, i, acc, p, bound).code.value, CondClauses(cls, i, acc, p, bound).patches)
    decreases |cls| - i
  {
    if i < |cls| {
      CondClauseKeeps(cls[i], acc, p);
      var o := CondClause(cls[i], acc, p);
      if o.code.Ok? {
        CondClausesKeep(cls, i + 1, o.code.value, o.patches, bound);
      }
    }
  }

  /** Patching code of the loop's shape succeeds, and afterwards every JUMP
      offset lands on the end of the code. */
  lemma {:induction false} PatchLands(code: seq<Word>, p: seq<nat>)
    requires Pending(code, p)
    ensures Patch(code, p).Ok?
    ensures var r := Patch(code, p).value;
      |r| == |code|
      && (forall i :: 0 <= i < |r| && r[i] == Op(Jump) ==> i + 1 < |r| && r[i + 1] == Off(|r| - i))
      && (forall i :: 0 <= i < |r| && r[i] == Op(Jif) ==> JifLands(r, i))
  {
    assert forall k :: 0 <= k < |p| ==> p[k] in p;
    var r := Patch(code, p).value;
    forall i | 0 <= i < |r|
      ensures (r[i] == Op(Jump)) == (code[i] == Op(Jump)) && (r[i] == Op(Jif)) == (code[i] == Op(Jif))
    {
      if i in p {
        assert code[i].Off?;
      }
    }
    forall i | 0 <= i < |r| && r[i] == Op(Jif)
      ensures JifLands(r, i)
    {
      assert JifLands(code, i);
      assert i + 1 !in p;
    }
  }

  /** With an empty patch list on entry and no `cond` nested in its clauses,
      a `cond` compiles to code whose JUMP offsets, counted from the opcode,
      land on the end of the code, and whose JIF offsets land just past the
      JUMP operand of their own clause. */
  lemma {:induction false} CondOffsets(e: Value)
    requires e.Pair? && e.car == Sym("cond") && e.cdr.Pair? && NoCond(e.cdr.car)
    requires Compile(e, []).code.Ok?
    ensures var r := Compile(e, []).code.value;
      (forall i :: 0 <= i < |r| && r[i] == Op(Jump) ==> i + 1 < |r| && r[i + 1] == Off(|r| - i))
      && (forall i :: 0 <= i < |r| && r[i] == Op(Jif) ==> JifLands(r, i))
  {
    SizeOfParts(e);
    var cls := Clauses(e.cdr.car).value;
    if e.cdr.car.Pair? {
      NoCondElements(e.cdr.car);
    }
    assert forall k :: 0 <= k < |cls| ==> NoCond(cls[k]);
    CondClausesKeep(cls, 0, [], [], Size(e));
    var o := CondClauses(cls, 0, [], [], Size(e));
    PatchLands(o.code.value, o.patches);
  }

  // The persistent patch list

  /** A clause free of `cond` compiles to the same code whatever the patch
      list holds, and adds its one JUMP position to it. */
  lemma {:induction false} CondClauseAnyPatches(pair: Value, acc: seq<Word>, p: seq<nat>)
    requires NoCond(pair)
    ensures CondClause(pair, acc, p)
      == Out(CondClause(pair, acc, []).code, p + CondClause(pair, acc, []).patches)
  {
    if pair.Pair? {
      SizeOfParts(pair);
      assert NoCond(pair.cdr);
      CompileWithoutCond(pair.car, p);
      CompileWithoutCond(pair.car, []);
      if pair.cdr.Pair? {
        CompileWithoutCond(pair.cdr.car, p);
        CompileWithoutCond(pair.cdr.car, []);
      }
    }
  }

  lemma {:induction false} CondClausesAnyPatches(cls: seq<Value>, i: nat, acc: seq<Word>, p: seq<nat>, bound: nat)
    requires forall k :: 0 <= k < |cls| ==> Size(cls[k]) < bound && NoCond(cls[k])
    ensures CondClauses(cls, i, acc, p, bound)
      == Out(CondClauses(cls, i, acc, [], bound).code, p + CondClauses(cls, i, acc, [], bound).patches)
    decreases |cls| - i
  {
    if i < |cls| {
      CondClauseAnyPatches(cls[i], acc, p);
      var o := CondClause(cls[i], acc, []);
      if o.code.Ok? {
        var next := CondClauses(cls, i + 1, o.code.value, [], bound);
        calc {
          CondClauses(cls, i, acc, p, bound);
          CondClauses(cls, i + 1, o.code.value, p + o.patches, bound);
          { CondClausesAnyPatches(cls, i + 1, o.code.value, p + o.patches, bound); }
          Out(next.code, (p + o.patches) + next.patches);
          { SeqAssoc(p, o.patches, next.patches); }
          Out(next.code, p + (o.patches + next.patches));
        }
        calc {
          CondClauses(cls, i, acc, [], bound);
          CondClauses(cls, i + 1, o.code.value, o.patches, bound);
          { CondClausesAnyPatches(cls, i + 1, o.code.value, o.patches, bound); }
          Out(next.code, o.patches + next.patches);
        }
      }
    } else {
      assert p + [] == p;
    }
  }

  /** Patching with `p + q` is patching with `q`, then with `p`. */
  lemma {:induction false} PatchTwice(code: seq<Word>, p: seq<nat>, q: seq<nat>)
    requires Patch(code, q).Ok?
    ensures Patch(code, p + q) == Patch(Patch(code, q).value, p)
  {
    var r := Patch(code, q).value;
    if exists k :: 0 <= k < |p + q| && (p + q)[k] >= |code| {
      var k :| 0 <= k < |p + q| && (p + q)[k] >= |code|;
      if k >= |p| {
        assert false;
      }
      assert p[k] >= |r|;
    } else {
      assert forall k :: 0 <= k < |p| ==> p[k] == (p + q)[k];
      assert Patch(r, p).Ok?;
      var a := Patch(code, p + q).value;
      var b := Patch(r, p).value;
      forall i | 0 <= i < |a|
        ensures a[i] == b[i]
      {
        assert (i in p + q) == (i in p || i in q);
      }
      assert a == b;
    }
  }

  /** The parser's patch list is never cleared: a `cond` whose clauses hold
      no `cond` compiles, after earlier `cond`s left positions `p` pending,
      to the code a fresh parser gives with the word at every stale position
      overwritten by an offset to its end (IndexError when a position lies
      past the end), and its own JUMP positions join the stale ones. */
  lemma {:induction false} StalePatches(e: Value, p: seq<nat>)
    requires e.Pair? && e.car == Sym("cond") && e.cdr.Pair? && NoCond(e.cdr.car)
    ensures var alone := Compile(e, []);
      Compile(e, p)
        == Out(if alone.code.Ok? then Patch(alone.code.value, p) else alone.code, p + alone.patches)
  {
    SizeOfParts(e);
    if Clauses(e.cdr.car).Ok? {
      var cls := Clauses(e.cdr.car).value;
      if e.cdr.car.Pair? {
        NoCondElements(e.cdr.car);
      }
      assert forall k :: 0 <= k < |cls| ==> NoCond(cls[k]);
      CondClausesAnyPatches(cls, 0, [], p, Size(e));
      var o := CondClauses(cls, 0, [], [], Size(e));
      if o.code.Ok? && Patch(o.code.value, o.patches).Ok? {
        PatchTwice(o.code.value, p, o.patches);
      }
      if o.code.Ok? && Patch(o.code.value, o.patches).Err? {
        var k :| 0 <= k < |o.patches| && o.patches[k] >= |o.code.value|;
        assert (p + o.patches)[|p| + k] >= |o.code.value|;
      }
    } else {
      assert p + [] == p;
    }
  }
}
