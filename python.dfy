/** The few Python semantics the routing service relies on: optional values,
    the two exceptions its core can raise, list indexing (negative indices
    count from the end) and `str()` of the caller's ids. */
module Python {

  datatype Option<+T> = None | Some(value: T)

  /** The exceptions the core raises on malformed data. */
  datatype Error = IndexError | KeyError

  /** A value, or the exception that aborted the computation. */
  datatype Result<+T> = Ok(value: T) | Err(error: Error)

  /** The position `xs[i]` reads or writes in a list of length `n`, or None
      when Python raises IndexError: `-n <= i < n`, negative indices counting
      back from the end. */
  function Slot(i: int, n: nat): (r: Option<nat>)
    ensures r.Some? <==> -(n as int) <= i < n
    ensures r.Some? ==> r.value < n && (r.value == i || r.value == i + n)
  {
    if 0 <= i < n then Some(i)
    else if -(n as int) <= i < 0 then Some(i + n)
    else None
  }

  /** The one list position has exactly two spellings: `n - 1` and `-1`. */
  lemma LastSlot(i: int, n: nat)
    requires n > 0
    ensures Slot(i, n) == Some(n - 1) <==> i == n - 1 || i == -1
  {
  }

  /** A JSON id as the request carries it: a number or a string. */
  datatype Id = Num(n: int) | Text(s: string)

  /** The decimal digits of a natural number, most significant first. */
  function Digits(n: nat): (r: string)
    ensures |r| > 0
    ensures forall i :: 0 <= i < |r| ==> '0' <= r[i] <= '9'
  {
    var d := [(48 + n % 10) as char];
    if n < 10 then d else Digits(n / 10) + d
  }

  /** Python's `str(id)`. */
  function Str(id: Id): (r: string)
  {
    match id
    case Num(n) => if n < 0 then "-" + Digits(-n) else Digits(n)
    case Text(s) => s
  }

  /** Different natural numbers have different decimal digits. */
  lemma {:induction false} DigitsInjective(a: nat, b: nat)
    ensures Digits(a) == Digits(b) <==> a == b
  {
    if a >= 10 && b >= 10 {
      DigitsInjective(a / 10, b / 10);
      var da, db := Digits(a), Digits(b);
      if da == db {
        assert da[..|da| - 1] == Digits(a / 10) && db[..|db| - 1] == Digits(b / 10);
        assert da[|da| - 1] == db[|db| - 1];
      }
    } else if a >= 10 {
      assert |Digits(a)| > 1;
    } else if b >= 10 {
      assert |Digits(b)| > 1;
    }
  }

  /** A negative number's string is its sign followed by its digits. */
  lemma NegativeStr(a: int)
    requires a < 0
    ensures Str(Num(a))[0] == '-' && Str(Num(a))[1..] == Digits(-a)
  {
    var d := Digits(-a);
    assert Str(Num(a)) == "-" + d;
  }

  /** A non-negative number's string starts with a digit. */
  lemma NonNegativeStr(a: int)
    requires a >= 0
    ensures Str(Num(a)) == Digits(a) && Str(Num(a))[0] != '-'
  {
  }

  /** `str()` tells integer ids apart: the sign is its own character. */
  lemma StrNumInjective(a: int, b: int)
    ensures Str(Num(a)) == Str(Num(b)) <==> a == b
  {
    if a < 0 {
      NegativeStr(a);
    } else {
      NonNegativeStr(a);
    }
    if b < 0 {
      NegativeStr(b);
    } else {
      NonNegativeStr(b);
    }
    if a < 0 && b < 0 {
      DigitsInjective(-a, -b);
    } else if a >= 0 && b >= 0 {
      DigitsInjective(a, b);
    } else {
      assert Str(Num(a))[0] != Str(Num(b))[0];
    }
  }

  /** `str()` does not tell a number from the string of its digits: the
      ids `1` and `"1"` give the same key. */
  lemma NumberAndTextCollide()
    ensures Str(Num(1)) == Str(Text("1"))
  {
  }
}
