/**
 * The `Cons` cell of src/cons.py: its length, its iteration order (forwards
 * and reversed), the in-place `append` the reader builds lists with, and its
 * printed form. A cell is a `Pair` value; `append`, which mutates cells in
 * place, is modelled as the function giving the chain after the update, with
 * every cell keeping its identity.
 */
module Cons {
  import opened Values

  /** The cars of the cells along the cdr chain starting at `c`. */
  function Spine(c: Value): (r: seq<Value>)
    requires c.Pair?
    ensures |r| >= 1 && r[0] == c.car
    decreases Size(c)
  {
    [c.car] + if c.cdr.Pair? then Spine(c.cdr) else []
  }

  /** The identities of the cells along the cdr chain. */
  function Ids(c: Value): (r: seq<nat>)
    requires c.Pair?
    ensures |r| == |Spine(c)|
    decreases Size(c)
  {
    [c.id] + if c.cdr.Pair? then Ids(c.cdr) else []
  }

  /** The object in the cdr of the last cell of the chain: `Nil` for a
      well-formed list, anything else for an improper one. */
  function Tail(c: Value): (t: Value)
    requires c.Pair?
    ensures !t.Pair?
    decreases Size(c)
  {
    if c.cdr.Pair? then Tail(c.cdr) else c.cdr
  }

  /** `len(c)`: one per cell, plus `len` of a non-cell tail: Python's `len` of a
      string tail is the string's length and `len` of a number or a boolean
      raises TypeError (None). */
  function Length(c: Value): (r: Option<nat>)
    requires c.Pair?
    ensures r.Some? <==> Tail(c) == Nil || Tail(c).Sym?
    ensures r.Some? ==> r.value >= 1
    decreases Size(c)
  {
    match c.cdr
    case Nil => Some(1)
    case Sym(s) => Some(1 + |s|)
    case Pair(_, _, _) => (match Length(c.cdr) case Some(n) => Some(1 + n) case None => None)
    case _ => None
  }

  /** `list(iter(c))`: each cell's car, then a non-None tail as one more element. */
  function Elements(c: Value): (r: seq<Value>)
    requires c.Pair?
    ensures |r| >= 1 && r[0] == c.car
    ensures forall k :: 0 <= k < |r| ==> Size(r[k]) < Size(c)
    decreases Size(c)
  {
    var rest := if c.cdr.Pair? then Elements(c.cdr) else if c.cdr != Nil then [c.cdr] else [];
    assert forall k :: 0 <= k < |rest| ==> Size(rest[k]) <= Size(c.cdr);
    [c.car] + rest
  }

  /** `list(reversed(c))`: the iteration order, backwards. */
  function ReversedElements(c: Value): (r: seq<Value>)
    requires c.Pair?
    ensures |r| == |Elements(c)|
    ensures forall k :: 0 <= k < |r| ==> r[k] == Elements(c)[|r| - 1 - k]
    ensures forall k :: 0 <= k < |r| ==> Size(r[k]) < Size(c)
  {
    var es := Elements(c);
    var r := Rev(es);
    forall k | 0 <= k < |r| ensures r[k] == es[|r| - 1 - k] && Size(r[k]) < Size(c) {
      RevAt(es, k);
    }
    r
  }

  /** Iteration yields the cars of the chain in order, then a non-None tail. */
  lemma {:induction false} ElementsAreSpineAndTail(c: Value)
    requires c.Pair?
    ensures Elements(c) == Spine(c) + (if Tail(c) == Nil then [] else [Tail(c)])
    decreases Size(c)
  {
    if c.cdr.Pair? {
      ElementsAreSpineAndTail(c.cdr);
    }
  }

  /** `len` counts the cells of a nil-terminated chain; a string tail adds its
      length, and any other tail makes `len` raise. */
  lemma {:induction false} LengthCountsCells(c: Value)
    requires c.Pair?
    ensures Length(c) == match Tail(c)
                         case Nil => Some(|Spine(c)|)
                         case Sym(s) => Some(|Spine(c)| + |s|)
                         case _ => None
    decreases Size(c)
  {
    if c.cdr.Pair? {
      LengthCountsCells(c.cdr);
    }
  }

  /** On a nil-terminated chain, `len` is the number of iterated elements. */
  lemma {:induction false} LengthOfProperList(c: Value)
    requires c.Pair? && Tail(c) == Nil
    ensures Length(c) == Some(|Elements(c)|)
  {
    LengthCountsCells(c);
    ElementsAreSpineAndTail(c);
  }

  function IndexOf(s: seq<Value>, x: Value): (k: nat)
    requires x in s
    ensures k < |s| && s[k] == x && forall j :: 0 <= j < k ==> s[j] != x
  {
    if s[0] == x then 0 else 1 + IndexOf(s[1..], x)
  }

  /** Whether appending `v` fills a hole: a cell whose car is None. */
  predicate FillsHole(cars: seq<Value>, v: Value)
  {
    v != Nil && Nil in cars
  }

  /** The cars after `append(v)`: the first None car takes `v` when `v` is not
      None; otherwise `v` goes at the end. */
  function Filled(cars: seq<Value>, v: Value): seq<Value>
  {
    if FillsHole(cars, v) then cars[IndexOf(cars, Nil) := v] else cars + [v]
  }

  /** `c.append(v)`: the chain after the in-place update. `newId` is the
      identity of the cell the update allocates when it allocates one. */
  function Append(c: Value, v: Value, newId: nat): (r: Value)
    requires c.Pair?
    ensures r.Pair? && r.id == c.id
    decreases Size(c)
  {
    if c.car == Nil && v != Nil then Pair(c.id, v, c.cdr)
    else if !c.cdr.Pair? then Pair(c.id, c.car, Pair(newId, v, Nil))
    else Pair(c.id, c.car, Append(c.cdr, v, newId))
  }

  /** Past a car that takes no value, `append` acts on the rest of the cars. */
  lemma {:induction false} FilledPastFront(x: Value, t: seq<Value>, v: Value)
    requires !(x == Nil && v != Nil)
    ensures FillsHole([x] + t, v) == FillsHole(t, v)
    ensures Filled([x] + t, v) == [x] + Filled(t, v)
  {
    var s := [x] + t;
    if v != Nil {
      assert s[0] == x && s[1..] == t;
      assert Nil in s <==> Nil in t;
      if Nil in t {
        assert IndexOf(s, Nil) == 1 + IndexOf(t, Nil);
      }
    }
  }

  /** The cars after `append`. */
  lemma {:induction false} AppendSpine(c: Value, v: Value, newId: nat)
    requires c.Pair?
    ensures Spine(Append(c, v, newId)) == Filled(Spine(c), v)
    decreases Size(c)
  {
    if c.car == Nil && v != Nil {
      assert IndexOf(Spine(c), Nil) == 0;
    } else if !c.cdr.Pair? {
      assert Spine(c) == [c.car];
    } else {
      var r := Append(c, v, newId);
      assert Spine(r.cdr) == Filled(Spine(c.cdr), v) by {
        AppendSpine(c.cdr, v, newId);
      }
      assert Filled(Spine(c), v) == [c.car] + Filled(Spine(c.cdr), v) by {
        assert Spine(c) == [c.car] + Spine(c.cdr);
        FilledPastFront(c.car, Spine(c.cdr), v);
      }
    }
  }

  /** The tail after `append`: kept when a hole is filled, None otherwise. */
  lemma {:induction false} AppendTail(c: Value, v: Value, newId: nat)
    requires c.Pair?
    ensures Tail(Append(c, v, newId)) == if FillsHole(Spine(c), v) then Tail(c) else Nil
    decreases Size(c)
  {
    if c.car == Nil && v != Nil {
    } else if !c.cdr.Pair? {
      assert Spine(c) == [c.car];
    } else {
      AppendTail(c.cdr, v, newId);
      assert FillsHole(Spine(c), v) == FillsHole(Spine(c.cdr), v) by {
        assert Spine(c) == [c.car] + Spine(c.cdr);
        FilledPastFront(c.car, Spine(c.cdr), v);
      }
    }
  }

  /** The cell identities after `append`: the same cells, plus the new one
      when no hole is filled. */
  lemma {:induction false} AppendIds(c: Value, v: Value, newId: nat)
    requires c.Pair?
    ensures Ids(Append(c, v, newId)) == if FillsHole(Spine(c), v) then Ids(c) else Ids(c) + [newId]
    decreases Size(c)
  {
    if c.car == Nil && v != Nil {
    } else if !c.cdr.Pair? {
      assert Spine(c) == [c.car];
    } else {
      var r := Append(c, v, newId);
      AppendIds(c.cdr, v, newId);
      assert FillsHole(Spine(c), v) == FillsHole(Spine(c.cdr), v) by {
        assert Spine(c) == [c.car] + Spine(c.cdr);
        FilledPastFront(c.car, Spine(c.cdr), v);
      }
      assert Ids(r) == [c.id] + Ids(r.cdr);
      assert Ids(c) == [c.id] + Ids(c.cdr);
    }
  }

  /** What `append` does to the whole chain: it fills the first None car when
      `v` is not None and keeps the tail; otherwise it adds a cell `(v . None)`
      at the end, discarding an improper tail. No cell changes identity. */
  lemma {:induction false} AppendEffect(c: Value, v: Value, newId: nat)
    requires c.Pair?
    ensures Spine(Append(c, v, newId)) == Filled(Spine(c), v)
    ensures Tail(Append(c, v, newId)) == if FillsHole(Spine(c), v) then Tail(c) else Nil
    ensures Ids(Append(c, v, newId)) == if FillsHole(Spine(c), v) then Ids(c) else Ids(c) + [newId]
  {
    AppendSpine(c, v, newId);
    AppendTail(c, v, newId);
    AppendIds(c, v, newId);
  }

  /** On a nil-terminated chain with no None car, appending a non-None value
      adds it as the last element and grows the length by one. */
  lemma {:induction false} AppendToProperList(c: Value, v: Value, newId: nat)
    requires c.Pair? && Tail(c) == Nil && Nil !in Spine(c) && v != Nil
    ensures Elements(Append(c, v, newId)) == Elements(c) + [v]
    ensures Tail(Append(c, v, newId)) == Nil
    ensures Length(Append(c, v, newId)).Some? && Length(c).Some?
    ensures Length(Append(c, v, newId)).value == Length(c).value + 1
  {
    var r := Append(c, v, newId);
    AppendEffect(c, v, newId);
    ElementsAreSpineAndTail(c);
    ElementsAreSpineAndTail(r);
    LengthOfProperList(c);
    LengthOfProperList(r);
  }

  /** Python's `str` of an object; a cell prints through its `__repr__`. The
      text of a float is not modelled. */
  function Str(v: Value): (r: string)
    ensures v.Pair? ==> |r| >= 2 && r[0] == '(' && r[|r| - 1] == ')'
    decreases Size(v), 1
  {
    match v
    case Int(i) => IntToString(i)
    case Bool(b) => if b then "True" else "False"
    case Float(_) => "<float>"
    case Nil => "None"
    case Sym(s) => s
    case Pair(_, _, _) => "(" + ReprBody(v) + ")"
  }

  /** The text `__repr__` writes between the parentheses. */
  function ReprBody(c: Value): (r: string)
    requires c.Pair?
    ensures Str(c.car) <= r
    ensures c.cdr == Nil <==> r == Str(c.car)
    decreases Size(c), 0
  {
    Str(c.car) + if c.cdr == Nil then "" else " " + if c.cdr.Pair? then ReprBody(c.cdr) else ". " + Str(c.cdr)
  }

  function Strs(vs: seq<Value>): (r: seq<string>)
    ensures |r| == |vs|
  {
    if vs == [] then [] else [Str(vs[0])] + Strs(vs[1..])
  }

  function Join(parts: seq<string>, sep: string): string
  {
    if parts == [] then "" else if |parts| == 1 then parts[0] else parts[0] + sep + Join(parts[1..], sep)
  }

  /** How an improper tail is printed: " . t", or nothing for None. */
  function TailText(c: Value): string
    requires c.Pair?
  {
    if Tail(c) == Nil then "" else " . " + Str(Tail(c))
  }

  /** The printed form is the cars' texts joined by single spaces, followed by
      " . t" for an improper tail t. */
  lemma {:induction false} ReprBodyIsJoin(c: Value)
    requires c.Pair?
    ensures ReprBody(c) == Join(Strs(Spine(c)), " ") + TailText(c)
    decreases Size(c)
  {
    if c.cdr.Pair? {
      var rest := Strs(Spine(c.cdr));
      var head := Str(c.car) + " ";
      assert ReprBody(c) == head + ReprBody(c.cdr);
      assert ReprBody(c.cdr) == Join(rest, " ") + TailText(c) by {
        ReprBodyIsJoin(c.cdr);
        assert TailText(c) == TailText(c.cdr);
      }
      assert Join(Strs(Spine(c)), " ") == head + Join(rest, " ") by {
        assert Spine(c) == [c.car] + Spine(c.cdr);
        StrsFront(c.car, Spine(c.cdr));
        JoinFront(Str(c.car), rest, " ");
      }
      Regroup(head, Join(rest, " "), TailText(c));
    } else {
      assert Spine(c) == [c.car];
    }
  }

  lemma {:induction false} StrsFront(x: Value, t: seq<Value>)
    ensures Strs([x] + t) == [Str(x)] + Strs(t)
  {
    assert ([x] + t)[1..] == t;
  }

  lemma {:induction false} JoinFront(a: string, rest: seq<string>, sep: string)
    requires rest != []
    ensures Join([a] + rest, sep) == a + sep + Join(rest, sep)
  {
    assert ([a] + rest)[1..] == rest;
  }

  /** Regrouping a concatenation of three strings; stated once so the
      solver does not search for it inside `ReprBodyIsJoin`. */
  lemma {:induction false} Regroup(a: string, b: string, c: string)
    ensures a + (b + c) == a + b + c
  {
  }

  /** One turn of the printing loop over a cell followed by another cell. */
  lemma {:induction false} ReprStep(s: string, obj: Value)
    requires obj.Pair? && obj.cdr.Pair?
    ensures s + ReprBody(obj) == (s + Str(obj.car) + " ") + ReprBody(obj.cdr)
  {
    assert ReprBody(obj) == Str(obj.car) + " " + ReprBody(obj.cdr);
  }

  /** `c.__repr__()`, walking the chain in a loop. */
  method Repr(c: Value) returns (s: string)
    requires c.Pair?
    ensures s == Str(c)
    ensures s == "(" + Join(Strs(Spine(c)), " ") + TailText(c) + ")"
  {
    s := "(";
    var obj := c;
    var done := false;
    while !done
      invariant obj.Pair?
      invariant !done ==> s + ReprBody(obj) == "(" + ReprBody(c)
      invariant done ==> s == "(" + ReprBody(c)
      decreases Size(obj), if done then 0 else 1
    {
      if obj.cdr == Nil {
        s := s + Str(obj.car);
        done := true;
      } else if !obj.cdr.Pair? {
        assert ReprBody(obj) == Str(obj.car) + " " + ". " + Str(obj.cdr);
        s := s + Str(obj.car) + " " + ". " + Str(obj.cdr);
        done := true;
      } else {
        ReprStep(s, obj);
        s := s + Str(obj.car) + " ";
        obj := obj.cdr;
      }
    }
    ReprBodyIsJoin(c);
    assert "(" + ReprBody(c) + ")" == "(" + Join(Strs(Spine(c)), " ") + TailText(c) + ")";
    s := s + ")";
  }

}
