/**
 * The reader of src/lex.py: a cursor over the source text, a tokenizer
 * (`Advance`) and a recursive reader (`Expr`) that builds lists with
 * `Cons.append`. Characters are classified as ASCII only.
 */
module Lex {
  import opened Values
  import Cons

  /** `str.isspace` on ASCII: tab, newline, vertical tab, form feed, carriage
      return, the four separator controls and the space. */
  predicate IsSpace(ch: char)
  {
    (9 <= ch as int <= 13) || (28 <= ch as int <= 32)
  }

  /** `str.isalpha` on ASCII. */
  predicate IsAlpha(ch: char)
  {
    ('a' <= ch <= 'z') || ('A' <= ch <= 'Z')
  }

  /** A character that may start a symbol. */
  predicate IsSymbolStart(ch: char)
  {
    IsAlpha(ch) || ch == '+' || ch == '-' || ch == '*' || ch == '/'
  }

  /** A character that may continue a symbol. */
  predicate IsSymbolChar(ch: char)
  {
    IsSymbolStart(ch) || ch == '?'
  }

  predicate NotNewline(ch: char)
  {
    ch != '\n'
  }

  /** The end of the maximal run of characters satisfying `inRun` that starts at `i`. */
  function RunEnd(code: string, i: nat, inRun: char -> bool): (j: nat)
    requires i <= |code|
    ensures i <= j <= |code|
    ensures forall k :: i <= k < j ==> inRun(code[k])
    ensures j < |code| ==> !inRun(code[j])
    decreases |code| - i
  {
    if i < |code| && inRun(code[i]) then RunEnd(code, i + 1, inRun) else i
  }

  /** The first position at or after `i` that is not whitespace. */
  function SkipSpace(code: string, i: nat): (j: nat)
    requires i <= |code|
  {
    RunEnd(code, i, IsSpace)
  }

  /** The keywords `true`, `false` and `nil`; any other spelling is a symbol. */
  function Keyword(s: string): (r: Value)
    ensures s !in {"true", "false", "nil"} <==> r == Sym(s)
    ensures r == Nil <==> s == "nil"
    ensures s == "true" ==> r == Bool(true)
    ensures s == "false" ==> r == Bool(false)
  {
    if s == "true" then Bool(true) else if s == "false" then Bool(false) else if s == "nil" then Nil else Sym(s)
  }

  /** What `advance` returns: the comment sign, a parenthesis, or an atom. */
  datatype Lexeme = Comment | Open | Close | Atom(v: Value)

  /** The cars of a list read from `items`, each added by `append` to a fresh
      `Cons(None, None)`. */
  function FillAll(items: seq<Value>): (cars: seq<Value>)
    ensures |cars| >= 1
  {
    if items == [] then [Nil] else Cons.Filled(FillAll(items[..|items| - 1]), items[|items| - 1])
  }

  /** What `advance` reads from position `c` of `code`, and where it leaves
      the cursor: after skipping whitespace, a comment sign (not consumed), a
      parenthesis, or a maximal run of digits (an integer) or of symbol
      characters (a keyword or a symbol); with only whitespace left, `curr()`
      raises IndexError, and any other character is not a lexeme. */
  function Scan(code: string, c: nat): (r: (Result<Lexeme>, nat))
    requires c <= |code|
    ensures c <= r.1 <= |code|
    ensures r.0.Ok? && r.0.value != Comment ==> r.1 > c
    ensures r.0 == Ok(Comment) ==> r.1 < |code| && code[r.1] == '%'
    ensures r.0 == Ok(Close) ==> code[r.1 - 1] == ')'
    ensures r.0 == Err(IndexError) <==> forall k :: c <= k < |code| ==> IsSpace(code[k])
  {
    var s := SkipSpace(code, c);
    if s == |code| then (Err(IndexError), s)
    else if code[s] == '%' then (Ok(Comment), s)
    else if code[s] == '(' then (Ok(Open), s + 1)
    else if code[s] == ')' then (Ok(Close), s + 1)
    else if IsDigit(code[s]) then
      var e := RunEnd(code, s, IsDigit);
      (Ok(Atom(Int(DecimalValue(code[s..e])))), e)
    else if IsSymbolStart(code[s]) then
      var e := RunEnd(code, s, IsSymbolChar);
      (Ok(Atom(Keyword(code[s..e]))), e)
    else (Err(UnknownLexeme), s)
  }

  /** A run of class characters ending at `j` ends there. */
  lemma {:induction false} RunEndAt(code: string, i: nat, j: nat, inRun: char -> bool)
    requires i <= j <= |code|
    requires forall k :: i <= k < j ==> inRun(code[k])
    requires j == |code| || !inRun(code[j])
    ensures RunEnd(code, i, inRun) == j
    decreases j - i
  {
    if i < j {
      RunEndAt(code, i + 1, j, inRun);
    }
  }

  /** The decimal numeral of `n`, after whatever whitespace follows the
      cursor and before anything that cannot continue it, reads back as the
      integer `n`, with the cursor just past it. */
  lemma {:induction false} ScanNumeralAt(code: string, c: nat, n: nat)
    requires c <= |code|
    requires var s := SkipSpace(code, c); var e := s + |Digits(n)|;
      e <= |code| && code[s..e] == Digits(n) && (e == |code| || !IsDigit(code[e]))
    ensures Scan(code, c) == (Ok(Atom(Int(n))), SkipSpace(code, c) + |Digits(n)|)
  {
    var d := Digits(n);
    var s := SkipSpace(code, c);
    var e := s + |d|;
    assert code[s] == d[0];
    forall k | s <= k < e
      ensures IsDigit(code[k])
    {
      assert code[k] == d[k - s];
    }
    RunEndAt(code, s, e, IsDigit);
    DecimalOfDigits(n);
  }

  /** The numeral at the very start of the text: `ScanNumeralAt` at 0. */
  lemma {:induction false} ScanNumeral(n: nat, rest: string)
    requires rest == [] || !IsDigit(rest[0])
    ensures Scan(Digits(n) + rest, 0) == (Ok(Atom(Int(n))), |Digits(n)|)
  {
    var d := Digits(n);
    var code := d + rest;
    assert code[0] == d[0];
    assert SkipSpace(code, 0) == 0;
    assert code[..|d|] == d;
    ScanNumeralAt(code, 0, n);
  }

  /** A symbol-start character and the longest run of symbol characters
      after it, found after whatever whitespace follows the cursor, read as
      the keyword or symbol of that spelling, with the cursor just past it. */
  lemma {:induction false} ScanSymbolAt(code: string, c: nat, e: nat)
    requires c <= |code|
    requires var s := SkipSpace(code, c);
      s < e <= |code| && IsSymbolStart(code[s])
      && (forall k :: s <= k < e ==> IsSymbolChar(code[k]))
      && (e == |code| || !IsSymbolChar(code[e]))
    ensures Scan(code, c) == (Ok(Atom(Keyword(code[SkipSpace(code, c)..e]))), e)
  {
    var s := SkipSpace(code, c);
    assert !IsDigit(code[s]);
    RunEndAt(code, s, e, IsSymbolChar);
  }

  /** The symbol run at the very start of the text: `ScanSymbolAt` at 0. */
  lemma {:induction false} ScanSymbol(w: string, rest: string)
    requires |w| >= 1 && IsSymbolStart(w[0])
    requires forall k :: 0 <= k < |w| ==> IsSymbolChar(w[k])
    requires rest == [] || !IsSymbolChar(rest[0])
    ensures Scan(w + rest, 0) == (Ok(Atom(Keyword(w))), |w|)
  {
    var code := w + rest;
    assert code[0] == w[0];
    assert SkipSpace(code, 0) == 0;
    assert code[..|w|] == w;
    ScanSymbolAt(code, 0, |w|);
  }

  /** A parenthesis is read on its own: the cursor ends one past the
      whitespace skipped, just after the `(` or `)`. */
  lemma ScanParen(code: string, c: nat)
    requires c <= |code|
    ensures Scan(code, c).0 == Ok(Open) ==> Scan(code, c).1 == SkipSpace(code, c) + 1 && code[SkipSpace(code, c)] == '('
    ensures Scan(code, c).0 == Ok(Close) ==> Scan(code, c).1 == SkipSpace(code, c) + 1 && code[SkipSpace(code, c)] == ')'
  {
  }

  /** `advance` raises UnknownLexeme exactly when the first character that
      is not whitespace is none of `%`, `(`, `)`, a digit or a symbol start. */
  lemma ScanUnknown(code: string, c: nat)
    requires c <= |code|
    ensures Scan(code, c).0 == Err(UnknownLexeme)
        <==> (var s := SkipSpace(code, c);
              s < |code| && code[s] != '%' && code[s] != '(' && code[s] != ')'
              && !IsDigit(code[s]) && !IsSymbolStart(code[s]))
  {
  }

  /** What reading an expression leaves: the result, where the cursor ends,
      the next free cell identity and, for a list, the elements appended to
      it in source order (empty for anything else). */
  datatype Reading = Reading(r: Result<Value>, cursor: nat, cells: nat, items: seq<Value>)

  /** What `lex` leaves: the expressions kept, the cursor and the next free
      cell identity. */
  datatype Lexing = Lexing(r: Result<seq<Value>>, cursor: nat, cells: nat)

  /** Reading a list takes its elements after the `(`. */
  function Rank(lexeme: Lexeme): nat
  {
    if lexeme == Open then 4 else 0
  }

  /** `expr(lexeme)` with the cursor at `c` and `cells` the identity of the
      next cell: a comment runs to the next newline and reads as None, `(`
      reads the elements of a fresh `Cons(None, None)`, a stray `)` raises
      and an atom reads as itself. */
  function ReadExpr(code: string, c: nat, cells: nat, lexeme: Lexeme): (out: Reading)
    requires c <= |code|
    ensures c <= out.cursor <= |code|
    ensures lexeme == Comment && c < |code| && code[c] == '%' ==> out.cursor > c
    decreases |code| - c, Rank(lexeme)
  {
    match lexeme
    case Comment => Reading(Ok(Nil), RunEnd(code, c, NotNewline), cells, [])
    case Open => ReadElements(code, c, cells + 1, Pair(cells, Nil, Nil), [])
    case Close => Reading(Err(UnexpectedClose), c, cells, [])
    case Atom(v) => Reading(Ok(v), c, cells, [])
  }

  /** The loop of the `(` branch of `expr` from position `c`, with `sexpr`
      the list so far and `items` the elements appended to it: the next
      lexeme is either the closing `)`, or an element to append, after which
      running out of input raises. */
  function ReadElements(code: string, c: nat, cells: nat, sexpr: Value, items: seq<Value>): (out: Reading)
    requires c <= |code| && sexpr.Pair?
    ensures c <= out.cursor <= |code|
    decreases |code| - c, 2
  {
    var (next, c1) := Scan(code, c);
    if next.Err? then Reading(Err(next.error), c1, cells, items)
    else if next.value == Close then Reading(Ok(sexpr), c1, cells, items)
    else
      ElementRead(code, ReadExpr(code, c1, cells, next.value), sexpr, items)
  }

  /** The rest of one turn of the list loop, once an element has been read
      (`element`): a failure stops the loop, otherwise the element is
      appended and, unless the input has run out, the loop goes on. */
  function ElementRead(code: string, element: Reading, sexpr: Value, items: seq<Value>): (out: Reading)
    requires element.cursor <= |code| && sexpr.Pair?
    ensures element.cursor <= out.cursor <= |code|
    decreases |code| - element.cursor + 1, 0
  {
    if element.r.Err? then Reading(element.r, element.cursor, element.cells, items)
    else
      var grown := Cons.Append(sexpr, element.r.value, element.cells);
      var more := items + [element.r.value];
      if element.cursor == |code| then Reading(Err(UnterminatedList), element.cursor, element.cells + 1, more)
      else ReadElements(code, element.cursor, element.cells + 1, grown, more)
  }

  /** The loop of `lex` from position `c`, with `res` the expressions kept so
      far: each turn reads one expression and keeps it unless it is None. */
  function ReadAll(code: string, c: nat, cells: nat, res: seq<Value>): (out: Lexing)
    requires c <= |code|
    ensures c <= out.cursor <= |code|
    decreases |code| - c
  {
    if c >= |code| then Lexing(Ok(res), c, cells)
    else
      var (next, c1) := Scan(code, c);
      if next.Err? then Lexing(Err(next.error), c1, cells)
      else
        var e := ReadExpr(code, c1, cells, next.value);
        if e.r.Err? then Lexing(Err(e.r.error), e.cursor, e.cells)
        else ReadAll(code, e.cursor, e.cells, if e.r.value != Nil then res + [e.r.value] else res)
  }

  /** One turn of the list loop that reads an element rather than `)`. */
  lemma {:induction false} ElementTurn(code: string, c: nat, cells: nat, sexpr: Value, items: seq<Value>,
                                       next: Lexeme, c1: nat)
    requires c <= |code| && sexpr.Pair?
    requires Scan(code, c) == (Ok(next), c1) && next != Close
    ensures ReadElements(code, c, cells, sexpr, items) == ElementRead(code, ReadExpr(code, c1, cells, next), sexpr, items)
  {
  }

  /** After an element that leaves input to read, the loop goes on with it
      appended. */
  lemma {:induction false} ElementAppended(code: string, element: Reading, sexpr: Value, items: seq<Value>)
    requires element.cursor < |code| && sexpr.Pair? && element.r.Ok?
    ensures ElementRead(code, element, sexpr, items)
         == ReadElements(code, element.cursor, element.cells + 1,
                         Cons.Append(sexpr, element.r.value, element.cells), items + [element.r.value])
  {
  }

  /** A list of elements none of which is None has exactly those elements
      as its cars, in the order they were read. */
  lemma {:induction false} FillAllInOrder(items: seq<Value>)
    requires items != [] && Nil !in items
    ensures FillAll(items) == items
  {
    var init := items[..|items| - 1];
    if init == [] {
      assert Cons.IndexOf([Nil], Nil) == 0;
    } else {
      FillAllInOrder(init);
      assert init + [items[|items| - 1]] == items;
    }
  }

  /** Appending an element to a nil-terminated list with cars
      `FillAll(items)` keeps its head and gives cars `FillAll(items + [v])`. */
  lemma {:induction false} AppendRead(sexpr: Value, items: seq<Value>, v: Value, id: nat)
    requires sexpr.Pair? && Cons.Tail(sexpr) == Nil && Cons.Spine(sexpr) == FillAll(items)
    ensures Cons.Append(sexpr, v, id).id == sexpr.id
    ensures Cons.Tail(Cons.Append(sexpr, v, id)) == Nil
    ensures Cons.Spine(Cons.Append(sexpr, v, id)) == FillAll(items + [v])
  {
    Cons.AppendEffect(sexpr, v, id);
    assert (items + [v])[..|items|] == items;
  }

  /** What the list loop builds from a nil-terminated list whose cars are
      `FillAll(items)`: when it succeeds, the same head cell (so the list
      keeps the identity of its first cell), still nil-terminated, whose cars
      are `FillAll` of all the elements read, and the last character read is
      the closing `)`. */
  lemma {:induction false} ListShape(code: string, c: nat, cells: nat, sexpr: Value, items: seq<Value>)
    requires c <= |code| && sexpr.Pair?
    requires Cons.Tail(sexpr) == Nil && Cons.Spine(sexpr) == FillAll(items)
    ensures var out := ReadElements(code, c, cells, sexpr, items);
      out.r.Ok? ==>
        && out.r.value.Pair? && out.r.value.id == sexpr.id
        && Cons.Tail(out.r.value) == Nil && Cons.Spine(out.r.value) == FillAll(out.items)
        && items <= out.items && (out.items == items ==> out.r.value == sexpr)
    decreases |code| - c
  {
    var (next, c1) := Scan(code, c);
    if next.Ok? && next.value != Close {
      ElementTurn(code, c, cells, sexpr, items, next.value, c1);
      var element := ReadExpr(code, c1, cells, next.value);
      if element.r.Ok? && element.cursor < |code| {
        var v := element.r.value;
        var grown := Cons.Append(sexpr, v, element.cells);
        var more := items + [v];
        ElementAppended(code, element, sexpr, items);
        AppendRead(sexpr, items, v, element.cells);
        ListShape(code, element.cursor, element.cells + 1, grown, more);
        var out := ReadElements(code, element.cursor, element.cells + 1, grown, more);
        assert ReadElements(code, c, cells, sexpr, items) == out;
        if out.r.Ok? {
          assert items <= more <= out.items;
        }
      } else {
        assert ReadElements(code, c, cells, sexpr, items).r.Err?;
      }
    } else if next == Ok(Close) {
      assert ReadElements(code, c, cells, sexpr, items) == Reading(Ok(sexpr), c1, cells, items);
    } else {
      assert ReadElements(code, c, cells, sexpr, items).r.Err?;
    }
  }

  /** A list that reads successfully ends with the `)` that closes it. */
  lemma {:induction false} ListCloses(code: string, c: nat, cells: nat, sexpr: Value, items: seq<Value>)
    requires c <= |code| && sexpr.Pair?
    ensures var out := ReadElements(code, c, cells, sexpr, items);
      out.r.Ok? ==> c < out.cursor && code[out.cursor - 1] == ')'
    decreases |code| - c
  {
    var (next, c1) := Scan(code, c);
    if next == Ok(Close) {
      assert ReadElements(code, c, cells, sexpr, items).cursor == c1;
    } else if next.Ok? {
      ElementTurn(code, c, cells, sexpr, items, next.value, c1);
      var element := ReadExpr(code, c1, cells, next.value);
      if element.r.Ok? && element.cursor < |code| {
        var grown := Cons.Append(sexpr, element.r.value, element.cells);
        ElementAppended(code, element, sexpr, items);
        ListCloses(code, element.cursor, element.cells + 1, grown, items + [element.r.value]);
      }
    }
  }

  /** A list read from `(` is a fresh cell, numbered with the next free
      identity, that ends in None; its cars are what `append` leaves from
      the elements read in source order; it ends at the matching `)`; and
      `()` is that one cell holding None. */
  lemma {:induction false} ListRead(code: string, c: nat, cells: nat)
    requires c <= |code|
    ensures var out := ReadExpr(code, c, cells, Open);
      out.r.Ok? ==>
        && out.r.value.Pair? && out.r.value.id == cells
        && Cons.Tail(out.r.value) == Nil && Cons.Spine(out.r.value) == FillAll(out.items)
        && (out.items == [] ==> out.r.value == Pair(cells, Nil, Nil))
        && c < out.cursor && code[out.cursor - 1] == ')'
  {
    ListShape(code, c, cells + 1, Pair(cells, Nil, Nil), []);
    ListCloses(code, c, cells + 1, Pair(cells, Nil, Nil), []);
  }

  /** Input that ends right after an element of a list raises. */
  lemma {:induction false} UnterminatedAfterElement(code: string, c: nat, cells: nat, sexpr: Value, items: seq<Value>,
                                                    next: Lexeme, c1: nat)
    requires c <= |code| && sexpr.Pair?
    requires Scan(code, c) == (Ok(next), c1) && next != Close
    requires ReadExpr(code, c1, cells, next).r.Ok? && ReadExpr(code, c1, cells, next).cursor == |code|
    ensures ReadElements(code, c, cells, sexpr, items).r == Err(UnterminatedList)
  {
    ElementTurn(code, c, cells, sexpr, items, next, c1);
  }

  /** `lex` succeeds only by reading to the end of the input, and it keeps
      what it has kept so far, adding no None. */
  lemma {:induction false} ReadAllKeeps(code: string, c: nat, cells: nat, res: seq<Value>)
    requires c <= |code| && Nil !in res
    ensures var out := ReadAll(code, c, cells, res);
      out.r.Ok? ==> out.cursor == |code| && res <= out.r.value && Nil !in out.r.value
    decreases |code| - c
  {
    if c < |code| {
      var (next, c1) := Scan(code, c);
      if next.Ok? {
        var e := ReadExpr(code, c1, cells, next.value);
        if e.r.Ok? {
          ReadAllKeeps(code, e.cursor, e.cells, if e.r.value != Nil then res + [e.r.value] else res);
        }
      }
    }
  }

  /** Empty input reads as no expressions; other input that is all
      whitespace raises IndexError. */
  lemma {:induction false} LexBlank(code: string, cells: nat)
    requires forall k :: 0 <= k < |code| ==> IsSpace(code[k])
    ensures ReadAll(code, 0, cells, []).r == if code == [] then Ok([]) else Err(IndexError)
  {
  }

  /** A numeral on its own reads as one integer. */
  lemma {:induction false} LexNumeral(n: nat, cells: nat)
    ensures ReadAll(Digits(n), 0, cells, []) == Lexing(Ok([Int(n)]), |Digits(n)|, cells)
  {
    var code := Digits(n);
    ScanNumeral(n, []);
    assert code + [] == code;
    assert ReadExpr(code, |code|, cells, Atom(Int(n))) == Reading(Ok(Int(n)), |code|, cells, []);
    assert [] + [Int(n)] == [Int(n)];
    assert ReadAll(code, |code|, cells, [Int(n)]) == Lexing(Ok([Int(n)]), |code|, cells);
  }

  /** A `)` before any `(` raises. */
  lemma {:induction false} LexStrayClose(code: string, cells: nat)
    requires SkipSpace(code, 0) < |code| && code[SkipSpace(code, 0)] == ')'
    ensures ReadAll(code, 0, cells, []).r == Err(UnexpectedClose)
  {
  }

  /** A letter on its own, after whitespace and before a character that
      cannot continue a symbol, reads as a one-letter symbol. */
  lemma {:induction false} ScanLetter(code: string, c: nat, s: nat)
    requires c <= s < |code| && SkipSpace(code, c) == s && IsAlpha(code[s])
    requires s + 1 == |code| || !IsSymbolChar(code[s + 1])
    ensures Scan(code, c) == (Ok(Atom(Sym([code[s]]))), s + 1)
  {
    ScanSymbolAt(code, c, s + 1);
    assert code[s..s + 1] == [code[s]];
  }

  /** The list loop of `(a b)` once `a` has filled the fresh cell: `b`
      goes into a new cell, and `)` ends the list. */
  lemma {:induction false} ReadSecondElement(cells: nat)
    ensures ReadElements("(a b)", 2, cells + 2, Pair(cells, Sym("a"), Nil), [Sym("a")])
         == Reading(Ok(Pair(cells, Sym("a"), Pair(cells + 2, Sym("b"), Nil))), 5, cells + 3, [Sym("a"), Sym("b")])
  {
    var code := "(a b)";
    var a, b := Sym("a"), Sym("b");
    var first := Pair(cells, a, Nil);
    var list := Pair(cells, a, Pair(cells + 2, b, Nil));
    assert SkipSpace(code, 2) == 3 by {
      RunEndAt(code, 2, 3, IsSpace);
    }
    ScanLetter(code, 2, 3);
    assert SkipSpace(code, 4) == 4;
    assert Scan(code, 4) == (Ok(Close), 5);
    assert ReadElements(code, 4, cells + 3, list, [a, b]) == Reading(Ok(list), 5, cells + 3, [a, b]);
    ElementTurn(code, 2, cells + 2, first, [a], Atom(b), 4);
    ElementAppended(code, Reading(Ok(b), 4, cells + 2, []), first, [a]);
    assert [a] + [b] == [a, b];
  }

  /** The list `(a b)` after its `(`: `a` fills the fresh cell, then
      `ReadSecondElement`. */
  lemma {:induction false} ReadTwoElements(cells: nat)
    ensures ReadExpr("(a b)", 1, cells, Open)
         == Reading(Ok(Pair(cells, Sym("a"), Pair(cells + 2, Sym("b"), Nil))), 5, cells + 3, [Sym("a"), Sym("b")])
  {
    var code := "(a b)";
    var a := Sym("a");
    var empty := Pair(cells, Nil, Nil);
    assert SkipSpace(code, 1) == 1;
    ScanLetter(code, 1, 1);
    ReadSecondElement(cells);
    ElementTurn(code, 1, cells + 1, empty, [], Atom(a), 2);
    ElementAppended(code, Reading(Ok(a), 2, cells + 1, []), empty, []);
    assert [] + [a] == [a];
  }

  /** `(a b)` reads as one list of two cells holding `a` and `b` in that
      order: the first cell is the fresh `Cons(None, None)` that `a` fills,
      and `b` goes into a new cell after it. */
  lemma {:induction false} LexTwoElementList(cells: nat)
    ensures ReadAll("(a b)", 0, cells, [])
         == Lexing(Ok([Pair(cells, Sym("a"), Pair(cells + 2, Sym("b"), Nil))]), 5, cells + 3)
  {
    var code := "(a b)";
    var list := Pair(cells, Sym("a"), Pair(cells + 2, Sym("b"), Nil));
    assert SkipSpace(code, 0) == 0;
    assert Scan(code, 0) == (Ok(Open), 1);
    ReadTwoElements(cells);
    assert [] + [list] == [list];
  }

  class Lexer {
    var code: string
    var cursor: nat
    /** Identity of the next `Cons` cell the reader allocates. */
    var cells: nat

    ghost predicate Valid()
      reads this
    {
      cursor <= |code|
    }

    constructor ()
      ensures Valid() && code == [] && cursor == 0 && cells == 0
    {
      code := [];
      cursor := 0;
      cells := 0;
    }

    /** `isAtEnd()`: no characters are left to read. */
    function IsAtEnd(): (b: bool)
      reads this
      ensures b <==> !(cursor < |code|)
    {
      cursor >= |code|
    }

    /** `curr()`: the character under the cursor. */
    function Curr(): (ch: char)
      reads this
      requires cursor < |code|
      ensures ch == code[cursor]
    {
      code[cursor]
    }

    /** `advance()`: the token `Scan` reads at the cursor, leaving the
        cursor where `Scan` says. */
    method Advance() returns (r: Result<Lexeme>)
      requires Valid()
      modifies this`cursor
      ensures Valid()
      ensures (r, cursor) == Scan(code, old(cursor))
    {
      SkipWhitespace();
      if cursor >= |code| {
        return Err(IndexError);
      }
      if Curr() == '%' {
        return Ok(Comment);
      }
      if Curr() == '(' {
        cursor := cursor + 1;
        return Ok(Open);
      } else if Curr() == ')' {
        cursor := cursor + 1;
        return Ok(Close);
      } else if IsDigit(Curr()) {
        var lexeme := ReadRun(IsDigit);
        return Ok(Atom(Int(DecimalValue(lexeme))));
      } else if IsSymbolStart(Curr()) {
        var lexeme := ReadRun(IsSymbolChar);
        if lexeme == "true" {
          return Ok(Atom(Bool(true)));
        } else if lexeme == "false" {
          return Ok(Atom(Bool(false)));
        } else if lexeme == "nil" {
          return Ok(Atom(Nil));
        }
        return Ok(Atom(Sym(lexeme)));
      } else {
        return Err(UnknownLexeme);
      }
    }

    /** The whitespace-skipping loop at the start of `advance`. */
    method SkipWhitespace()
      requires Valid()
      modifies this`cursor
      ensures Valid() && cursor == SkipSpace(code, old(cursor))
    {
      while cursor < |code| && IsSpace(Curr())
        invariant old(cursor) <= cursor <= |code|
        invariant SkipSpace(code, old(cursor)) == SkipSpace(code, cursor)
        decreases |code| - cursor
      {
        cursor := cursor + 1;
      }
    }

    /** The loops of `advance` that accumulate a number or a symbol: the
        lexeme is the maximal run of `inRun` characters under the cursor. */
    method ReadRun(inRun: char -> bool) returns (lexeme: string)
      requires Valid()
      modifies this`cursor
      ensures Valid() && cursor == RunEnd(code, old(cursor), inRun)
      ensures lexeme == code[old(cursor)..cursor]
    {
      lexeme := "";
      while !IsAtEnd() && inRun(Curr())
        invariant old(cursor) <= cursor <= |code|
        invariant lexeme == code[old(cursor)..cursor]
        invariant RunEnd(code, old(cursor), inRun) == RunEnd(code, cursor, inRun)
        decreases |code| - cursor
      {
        lexeme := lexeme + [Curr()];
        cursor := cursor + 1;
      }
    }

    /** `expr(lexeme)`: reads what `ReadExpr` reads, leaving the cursor and
        the cell counter where it says. */
    method Expr(lexeme: Lexeme) returns (r: Result<Value>, ghost items: seq<Value>)
      requires Valid()
      modifies this`cursor, this`cells
      ensures Valid() && code == old(code)
      ensures Reading(r, cursor, cells, items) == ReadExpr(code, old(cursor), old(cells), lexeme)
      decreases |code| - cursor, Rank(lexeme)
    {
      items := [];
      if lexeme == Comment {
        while !IsAtEnd() && Curr() != '\n'
          invariant old(cursor) <= cursor <= |code| && cells == old(cells)
          invariant RunEnd(code, old(cursor), NotNewline) == RunEnd(code, cursor, NotNewline)
          decreases |code| - cursor
        {
          cursor := cursor + 1;
        }
        r := Ok(Nil);
      } else if lexeme == Open {
        r, items := ReadList();
      } else if lexeme == Close {
        r := Err(UnexpectedClose);
      } else {
        r := Ok(lexeme.v);
      }
    }

    /** The `(` branch of `expr`: a fresh `Cons(None, None)`, then the loop
        that reads elements until the matching `)`. It reads what `ReadExpr`
        reads for `(`. */
    method ReadList() returns (r: Result<Value>, ghost items: seq<Value>)
      requires Valid()
      modifies this`cursor, this`cells
      ensures Valid() && code == old(code)
      ensures Reading(r, cursor, cells, items) == ReadExpr(code, old(cursor), old(cells), Open)
      decreases |code| - cursor, 3
    {
      items := [];
      var sexpr := Pair(cells, Nil, Nil);
      cells := cells + 1;
      ghost var target := ReadElements(code, cursor, cells, sexpr, items);
      var done := false;
      r := Ok(sexpr);
      while !done
        invariant Valid() && cursor >= old(cursor) && code == old(code)
        invariant sexpr.Pair?
        invariant !done ==> ReadElements(code, cursor, cells, sexpr, items) == target
        invariant done ==> Reading(r, cursor, cells, items) == target
        decreases |code| - cursor, if done then 0 else 1
      {
        done, r, sexpr, items := ReadElement(sexpr, items);
      }
    }

    /** One turn of the list loop: the next lexeme is the closing `)`, which
        ends the list, or an element (`AddElement`). Either the loop is done
        with what `ReadElements` reads, or it goes on from a cursor further
        on. */
    method ReadElement(sexpr: Value, ghost items: seq<Value>)
      returns (done: bool, r: Result<Value>, grown: Value, ghost more: seq<Value>)
      requires Valid() && sexpr.Pair?
      modifies this`cursor, this`cells
      ensures Valid() && code == old(code) && grown.Pair?
      ensures done ==> Reading(r, cursor, cells, more) == ReadElements(code, old(cursor), old(cells), sexpr, items)
      ensures !done ==> cursor > old(cursor)
      ensures !done ==> ReadElements(code, cursor, cells, grown, more) == ReadElements(code, old(cursor), old(cells), sexpr, items)
      decreases |code| - cursor, 2
    {
      grown, more := sexpr, items;
      var next := Advance();
      if next.Err? {
        return true, Err(next.error), grown, more;
      }
      if next.value == Close {
        return true, Ok(sexpr), grown, more;
      }
      ElementTurn(code, old(cursor), cells, sexpr, items, next.value, cursor);
      done, r, grown, more := AddElement(next.value, sexpr, items);
    }

    /** The rest of a turn of the list loop once `lexeme` is not `)`: the
        element it starts is read and appended, and running out of input
        right after it raises. It does what `ElementRead` says of the element
        `ReadExpr` reads. */
    method AddElement(lexeme: Lexeme, sexpr: Value, ghost items: seq<Value>)
      returns (done: bool, r: Result<Value>, grown: Value, ghost more: seq<Value>)
      requires Valid() && sexpr.Pair?
      modifies this`cursor, this`cells
      ensures Valid() && code == old(code) && grown.Pair?
      ensures done ==> Reading(r, cursor, cells, more)
                       == ElementRead(code, ReadExpr(code, old(cursor), old(cells), lexeme), sexpr, items)
      ensures !done ==> cursor == ReadExpr(code, old(cursor), old(cells), lexeme).cursor
      ensures !done ==> ReadElements(code, cursor, cells, grown, more)
                        == ElementRead(code, ReadExpr(code, old(cursor), old(cells), lexeme), sexpr, items)
      decreases |code| - cursor, Rank(lexeme) + 1
    {
      grown, more := sexpr, items;
      var element, elementItems := Expr(lexeme);
      if element.Err? {
        return true, element, grown, more;
      }
      if cursor < |code| {
        ElementAppended(code, Reading(element, cursor, cells, elementItems), sexpr, items);
      }
      grown := Cons.Append(sexpr, element.value, cells);
      cells := cells + 1;
      more := items + [element.value];
      if IsAtEnd() {
        return true, Err(UnterminatedList), grown, more;
      }
      r := Ok(grown);
      done := false;
    }

    /** `lex(text)`: resets the cursor and reads expressions until the input
        is used up, keeping those that are not None; it reads what `ReadAll`
        reads from the start of `text`. */
    method Lex(text: string) returns (r: Result<seq<Value>>)
      modifies this
      ensures Valid() && code == text
      ensures Lexing(r, cursor, cells) == ReadAll(text, 0, old(cells), [])
    {
      cursor := 0;
      code := text;
      var res: seq<Value> := [];
      ghost var target := ReadAll(text, 0, cells, res);
      while !IsAtEnd()
        invariant Valid() && code == text
        invariant ReadAll(text, cursor, cells, res) == target
        decreases |code| - cursor
      {
        var next := Advance();
        if next.Err? {
          return Err(next.error);
        }
        var e, _ := Expr(next.value);
        if e.Err? {
          return Err(e.error);
        }
        if e.value != Nil {
          res := res + [e.value];
        }
      }
      return Ok(res);
    }
  }
}
