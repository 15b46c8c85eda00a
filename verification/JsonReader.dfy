/** A reader of JSON texts (RFC 8259), one character at a time. */
module JsonReader {
  import opened Characters

  datatype Nest = InArray | InObject

  /** What the reader is in the middle of. */
  datatype Mode =
    | Value
    | ValueOrEnd
    | KeyOrEnd
    | Key
    | Colon
    | After
    | Str(isKey: bool)
    | Esc(isKey: bool)
    | Hex(isKey: bool, left: nat)
    | Minus
    | Zero
    | Int
    | Point
    | Frac
    | Exp
    | ExpSign
    | ExpDigits
    | Word(rest: string)

  datatype Reader = Bad | At(mode: Mode, nest: seq<Nest>)

  predicate IsSpace(c: char) {
    c == ' ' || c == '\t' || c == '\n' || c == '\r'
  }

  predicate IsHex(c: char) {
    IsDigit(c) || 'a' <= c <= 'f' || 'A' <= c <= 'F'
  }

  function Closed(nest: seq<Nest>): Reader
    requires nest != []
  {
    At(After, nest[..|nest| - 1])
  }

  /** What may follow a value. */
  function Following(c: char, nest: seq<Nest>): Reader {
    if IsSpace(c) then At(After, nest)
    else if nest == [] then Bad
    else
      match nest[|nest| - 1]
      case InArray => if c == ',' then At(Value, nest) else if c == ']' then Closed(nest) else Bad
      case InObject => if c == ',' then At(Key, nest) else if c == '}' then Closed(nest) else Bad
  }

  /** What a value may start with. */
  function Starting(c: char, nest: seq<Nest>): Reader {
    if c == '"' then At(Str(false), nest)
    else if c == '{' then At(KeyOrEnd, nest + [InObject])
    else if c == '[' then At(ValueOrEnd, nest + [InArray])
    else if c == '-' then At(Minus, nest)
    else if c == '0' then At(Zero, nest)
    else if IsDigit(c) then At(Int, nest)
    else if c == 't' then At(Word("rue"), nest)
    else if c == 'f' then At(Word("alse"), nest)
    else if c == 'n' then At(Word("ull"), nest)
    else Bad
  }

  function InText(c: char, isKey: bool, nest: seq<Nest>): Reader {
    if c == '"' then At(if isKey then Colon else After, nest)
    else if c == '\\' then At(Esc(isKey), nest)
    else if c < ' ' then Bad
    else At(Str(isKey), nest)
  }

  function Fraction(c: char, nest: seq<Nest>): Reader {
    if c == '.' then At(Point, nest) else Exponent(c, nest)
  }

  function Exponent(c: char, nest: seq<Nest>): Reader {
    if c == 'e' || c == 'E' then At(Exp, nest) else Following(c, nest)
  }

  function Next(q: Reader, c: char): Reader {
    if q.Bad? then Bad
    else
      var nest := q.nest;
      match q.mode
      case Value => if IsSpace(c) then q else Starting(c, nest)
      case ValueOrEnd =>
        if IsSpace(c) then q
        else if c == ']' then (if nest == [] then Bad else Closed(nest))
        else Starting(c, nest)
      case KeyOrEnd =>
        if IsSpace(c) then q
        else if c == '}' then (if nest == [] then Bad else Closed(nest))
        else if c == '"' then At(Str(true), nest)
        else Bad
      case Key => if IsSpace(c) then q else if c == '"' then At(Str(true), nest) else Bad
      case Colon => if IsSpace(c) then q else if c == ':' then At(Value, nest) else Bad
      case After => Following(c, nest)
      case Str(isKey) => InText(c, isKey, nest)
      case Esc(isKey) =>
        if c in "\"\\/bfnrt" then At(Str(isKey), nest)
        else if c == 'u' then At(Hex(isKey, 4), nest)
        else Bad
      case Hex(isKey, left) =>
        if !IsHex(c) then Bad else if left <= 1 then At(Str(isKey), nest) else At(Hex(isKey, left - 1), nest)
      case Minus => if c == '0' then At(Zero, nest) else if IsDigit(c) then At(Int, nest) else Bad
      case Zero => Fraction(c, nest)
      case Int => if IsDigit(c) then q else Fraction(c, nest)
      case Point => if IsDigit(c) then At(Frac, nest) else Bad
      case Frac => if IsDigit(c) then q else Exponent(c, nest)
      case Exp =>
        if IsDigit(c) then At(ExpDigits, nest) else if c == '+' || c == '-' then At(ExpSign, nest) else Bad
      case ExpSign => if IsDigit(c) then At(ExpDigits, nest) else Bad
      case ExpDigits => if IsDigit(c) then q else Following(c, nest)
      case Word(rest) =>
        if rest == [] || c != rest[0] || !('a' <= c <= 'z') then Bad
        else if |rest| == 1 then At(After, nest)
        else At(Word(rest[1..]), nest)
  }

  function Read(q: Reader, s: string): Reader
    decreases |s|
  {
    if s == [] then q else Read(Next(q, s[0]), s[1..])
  }

  /** A value is over, or would be if the text ended here. */
  predicate Complete(q: Reader) {
    q.At? && q.nest == [] && q.mode in {After, Zero, Int, Frac, ExpDigits}
  }

  predicate Accepts(q: Reader, s: string) {
    Complete(Read(q, s))
  }

  const START := At(Value, [])

  predicate Json(s: string) {
    Accepts(START, s)
  }

  // ---- Texts in parts ----

  lemma {:induction false} ReadSplit(q: Reader, s: string, t: string)
    ensures Read(q, s + t) == Read(Read(q, s), t)
    decreases |s|
  {
    hide Next;
    if s == [] {
      assert s + t == t;
    } else {
      assert (s + t)[1..] == s[1..] + t;
      ReadSplit(Next(q, s[0]), s[1..], t);
    }
  }

  lemma {:induction false} BadStays(s: string)
    ensures Read(Bad, s) == Bad
  {
    if s != [] {
      BadStays(s[1..]);
    }
  }

  lemma ReadOne(q: Reader, c: char, s: string)
    ensures Read(q, [c] + s) == Read(Next(q, c), s)
  {
    hide Next;
    assert ([c] + s)[1..] == s;
  }

  predicate Digits(s: string) {
    forall k | 0 <= k < |s| :: IsDigit(s[k])
  }

  lemma {:induction false} DigitsStay(q: Reader, s: string)
    requires q.At? && (q.mode == Int || q.mode == Str(false)) && Digits(s)
    ensures Read(q, s) == q
  {
    if s != [] {
      DigitsStay(q, s[1..]);
    }
  }
}
