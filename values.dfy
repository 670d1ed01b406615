/**
 * The objects the toolchain passes around. The reader, the compiler and the
 * virtual machine all work on Python objects; this module gives them one
 * closed type, plus the exception kinds the toolchain can raise.
 */
module Values {

  /** A Python object as the toolchain sees it. `Pair` is a `Cons` cell; its
      `id` stands for the cell's object identity, which Python's `==` and
      dictionary lookup use for cells (the class defines no `__eq__`).
      `Float` is the result of true division in the `/` built-in. */
  datatype Value =
    | Int(i: int)
    | Bool(b: bool)
    | Float(r: real)
    | Nil
    | Sym(name: string)
    | Pair(id: nat, car: Value, cdr: Value)

  /** The exception kinds the toolchain raises. Message texts are not modelled. */
  datatype Error =
    | TypeError          // len() of an int, iterating a non-iterable, reduce() of nothing
    | IndexError         // list index out of range, pop from an empty list
    | AttributeError     // `.car` / `.cdr` of an object that is not a cell
    | KeyError           // a name missing from the VM's table of built-ins
    | ZeroDivisionError
    | UnknownLexeme
    | UnterminatedList
    | UnexpectedClose
    | ArityError         // wrong number of arguments to a form or a built-in
    | InvalidSymbol      // `define` of something that is not a symbol
    | CondSyntax
    | UnknownFunction
    | Undefined          // OP_FIND of an unbound name
    | InvalidType        // a built-in given an operand of the wrong type

  datatype Option<+T> = None | Some(value: T)

  datatype Result<+T> = Ok(value: T) | Err(error: Error)

  /** Number of constructors in a value; the measure that the reader's and the
      compiler's recursion decrease. */
  function Size(v: Value): (n: nat)
    ensures n >= 1
  {
    match v
    case Pair(_, a, d) => 1 + Size(a) + Size(d)
    case _ => 1
  }

  /** The components of a cell are smaller than the cell, and so are their components. */
  lemma SizeOfParts(v: Value)
    requires v.Pair?
    ensures Size(v.car) < Size(v) && Size(v.cdr) < Size(v)
    ensures v.cdr.Pair? ==> Size(v.cdr.car) < Size(v) && Size(v.cdr.cdr) < Size(v)
    ensures v.cdr.Pair? && v.cdr.cdr.Pair? ==> Size(v.cdr.cdr.car) < Size(v)
  {
  }

  function Rev<T>(s: seq<T>): (r: seq<T>)
    ensures |r| == |s|
  {
    if s == [] then [] else Rev(s[1..]) + [s[0]]
  }

  lemma {:induction false} RevAt<T>(s: seq<T>, k: nat)
    requires k < |s|
    ensures Rev(s)[k] == s[|s| - 1 - k]
  {
    if k < |s| - 1 {
      RevAt(s[1..], k);
    }
  }

  lemma {:induction false} RevAppend<T>(s: seq<T>, x: T)
    ensures Rev(s + [x]) == [x] + Rev(s)
  {
    if s != [] {
      assert (s + [x])[1..] == s[1..] + [x];
      RevAppend(s[1..], x);
    } else {
      assert s + [x] == [x];
    }
  }

  /** Concatenation regroups; a named step for calculations, so the solver
      does not search for it. */
  lemma SeqAssoc<T>(a: seq<T>, b: seq<T>, c: seq<T>)
    ensures a + (b + c) == (a + b) + c
  {
  }

  lemma {:induction false} RevLast<T>(s: seq<T>)
    requires s != []
    ensures Rev(s) == [s[|s| - 1]] + Rev(s[..|s| - 1])
  {
    var init, x := s[..|s| - 1], s[|s| - 1];
    var r := [x] + Rev(init);
    forall k | 0 <= k < |s|
      ensures Rev(s)[k] == r[k]
    {
      RevAt(s, k);
      if k > 0 {
        RevAt(init, k - 1);
      }
    }
  }

  lemma {:induction false} RevRev<T>(s: seq<T>)
    ensures Rev(Rev(s)) == s
  {
    forall k | 0 <= k < |s|
      ensures Rev(Rev(s))[k] == s[k]
    {
      RevAt(Rev(s), k);
      RevAt(s, |s| - 1 - k);
    }
  }

  predicate IsDigit(ch: char) { '0' <= ch <= '9' }

  function DigitChar(d: nat): (ch: char)
    requires d < 10
    ensures IsDigit(ch)
  {
    ('0' as int + d) as char
  }

  function DigitValue(ch: char): (d: nat)
    requires IsDigit(ch)
    ensures d < 10 && DigitChar(d) == ch
  {
    (ch as int) - ('0' as int)
  }

  /** Python's `int(s)` on a string of decimal digits. */
  function DecimalValue(s: string): (n: nat)
    requires forall k :: 0 <= k < |s| ==> IsDigit(s[k])
  {
    if s == [] then 0 else DecimalValue(s[..|s| - 1]) * 10 + DigitValue(s[|s| - 1])
  }

  /** The decimal digits of a natural number, most significant first. */
  function Digits(n: nat): (s: string)
    ensures |s| >= 1 && forall k :: 0 <= k < |s| ==> IsDigit(s[k])
  {
    if n < 10 then [DigitChar(n)] else Digits(n / 10) + [DigitChar(n % 10)]
  }

  /** Reading back the digits of a number gives the number. */
  lemma {:induction false} DecimalOfDigits(n: nat)
    ensures DecimalValue(Digits(n)) == n
  {
    var s := Digits(n);
    if n >= 10 {
      assert s[..|s| - 1] == Digits(n / 10) && s[|s| - 1] == DigitChar(n % 10);
      DecimalOfDigits(n / 10);
      assert DigitValue(DigitChar(n % 10)) == n % 10;
    } else {
      assert DigitValue(DigitChar(n)) == n;
    }
  }

  /** Python's `str(i)` for an int. */
  function IntToString(i: int): string
  {
    if i < 0 then "-" + Digits(-i) else Digits(i)
  }
}
