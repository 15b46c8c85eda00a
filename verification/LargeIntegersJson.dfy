/** When preprocess_large_integers gives JSON for JSON: a reader of JSON texts, run beside the
    transducer. */
module LargeIntegersJson {
  import opened Characters
  import opened JsonReader
  import opened LargeIntegers

  // ---- A long run, quoted ----

  predicate WantsValue(q: Reader) {
    q.At? && (q.mode == Value || q.mode == ValueOrEnd)
  }

  predicate PointOrExponent(c: char) {
    c == '.' || c == 'e' || c == 'E'
  }

  /** Where no value is wanted, a quote and a digit cannot both follow. */
  lemma QuoteBreaks(q: Reader, d: char)
    requires IsDigit(d) && Next(q, d) != Bad && !WantsValue(q)
    ensures Next(Next(q, '"'), d) == Bad
  {
  }

  /** Where one is, the run is a number, and quoted a string. */
  lemma RunIsNumber(q: Reader, run: string)
    requires WantsValue(q) && |run| >= 2 && Digits(run) && Read(q, run) != Bad
    ensures Read(q, run) == At(Int, q.nest)
    ensures Read(q, "\"" + run + "\"") == At(After, q.nest)
  {
    hide Next;
    var d := run[0];
    var q1 := Next(q, d);
    FirstDigit(q, d, run[1]);
    assert run == [d] + run[1..];
    ReadOne(q, d, run[1..]);
    assert run[1..] == [run[1]] + run[2..];
    ReadOne(q1, run[1], run[2..]);
    BadStays(run[2..]);
    DigitsStay(At(Int, q.nest), run[1..]);
    assert "\"" + run + "\"" == ['"'] + (run + "\"");
    ReadOne(q, '"', run + "\"");
    ReadSplit(At(Str(false), q.nest), run, "\"");
    DigitsStay(At(Str(false), q.nest), run);
    assert "\"" == ['"'] + [];
    ReadOne(At(Str(false), q.nest), '"', []);
    QuotesOf(q);
  }

  lemma QuotesOf(q: Reader)
    requires WantsValue(q)
    ensures Next(q, '"') == At(Str(false), q.nest) && Next(At(Str(false), q.nest), '"') == At(After, q.nest)
  {
  }

  lemma FirstDigit(q: Reader, d: char, e: char)
    requires WantsValue(q) && IsDigit(d) && IsDigit(e)
    ensures Next(q, d) == At(Int, q.nest) || Next(Next(q, d), e) == Bad
  {
  }

  /** Behind it the number and the string are followed alike, but for a point or an exponent. */
  lemma FollowedAlike(nest: seq<Nest>, c: char)
    requires !IsDigit(c)
    ensures PointOrExponent(c) ==> Next(At(After, nest), c) == Bad
    ensures !PointOrExponent(c) ==> Next(At(After, nest), c) == Next(At(Int, nest), c)
  {
  }

  // ---- The transducer beside the reader ----

  /** The long run at the start of t stands for a whole value. */
  predicate CleanRun(q: Reader, t: string, n: nat)
    requires n <= |t|
  {
    n >= LONG ==> WantsValue(q) && (n == |t| || !PointOrExponent(t[n]))
  }

  /** Every long run the transducer meets in t, read from q on, stands for a whole value. */
  predicate Clean(q: Reader, t: string, inString: bool)
    decreases |t|
  {
    if t == [] then true
    else if t[0] == '"' then Clean(Next(q, t[0]), t[1..], !inString)
    else if !inString && IsDigit(t[0]) then
      var n := DigitRun(t);
      CleanRun(q, t, n) && Clean(Read(q, t[..n]), t[n..], false)
    else Clean(Next(q, t[0]), t[1..], inString)
  }

  lemma CleanStep(q: Reader, t: string, inString: bool)
    requires t != []
    ensures Clean(q, t, inString)
            == if t[0] == '"' then Clean(Next(q, t[0]), t[1..], !inString)
               else if !inString && IsDigit(t[0]) then
                 CleanRun(q, t, DigitRun(t)) && Clean(Read(q, t[..DigitRun(t)]), t[DigitRun(t)..], false)
               else Clean(Next(q, t[0]), t[1..], inString)
  {
    hide Next, Read, CleanRun;
  }

  lemma CleanNothing(q: Reader, inString: bool)
    ensures Clean(q, [], inString)
  {
  }

  lemma {:induction false} OutputAccepted(q: Reader, t: string, inString: bool)
    requires Accepts(q, t)
    ensures Accepts(q, Quote(t, inString)) <==> Clean(q, t, inString)
    decreases |t|
  {
    hide Quote, Clean, Read, Next, DigitRun, CleanRun, Complete;
    if t == [] {
      QuoteNothing(inString);
      CleanNothing(q, inString);
    } else {
      QuoteStep(t, inString);
      CleanStep(q, t, inString);
      if t[0] == '"' || inString || !IsDigit(t[0]) {
        var flag := if t[0] == '"' then !inString else inString;
        assert t == [t[0]] + t[1..];
        ReadOne(q, t[0], t[1..]);
        ReadOne(q, t[0], Quote(t[1..], flag));
        OutputAccepted(Next(q, t[0]), t[1..], flag);
      } else {
        var n := DigitRun(t);
        var run, rest := t[..n], t[n..];
        assert t == run + rest;
        ReadSplit(q, run, rest);
        OutputAccepted(Read(q, run), rest, false);
        if n < LONG {
          ReadSplit(q, run, Quote(rest, false));
          ShortIsClean(q, t, n);
        } else {
          LongRunAccepted(q, t, n);
        }
      }
    }
  }

  lemma ShortIsClean(q: Reader, t: string, n: nat)
    requires n <= |t| && n < LONG
    ensures CleanRun(q, t, n)
  {
  }

  lemma LongRunAccepted(q: Reader, t: string, n: nat)
    requires LONG <= n <= |t| && n == DigitRun(t) && Accepts(q, t)
    requires Accepts(Read(q, t[..n]), Quote(t[n..], false)) <==> Clean(Read(q, t[..n]), t[n..], false)
    ensures Accepts(q, Quoted(t[..n]) + Quote(t[n..], false))
            <==> CleanRun(q, t, n) && Clean(Read(q, t[..n]), t[n..], false)
  {
    hide Quote, Clean, Read, Next, DigitRun;
    var run, rest := t[..n], t[n..];
    var out := Quote(rest, false);
    assert t == run + rest;
    ReadSplit(q, run, rest);
    BadStays(rest);
    assert Quoted(run) == "\"" + run + "\"";
    if WantsValue(q) {
      RunIsNumber(q, run);
      ReadSplit(q, Quoted(run), out);
      RestAccepted(q.nest, rest);
    } else {
      RunBreaks(q, run, out);
    }
  }

  /** What follows the run, after a string instead of a number. */
  lemma RestAccepted(nest: seq<Nest>, rest: string)
    requires rest == [] || !IsDigit(rest[0])
    ensures rest != [] && PointOrExponent(rest[0]) ==> !Accepts(At(After, nest), Quote(rest, false))
    ensures !(rest != [] && PointOrExponent(rest[0]))
            ==> (Accepts(At(After, nest), Quote(rest, false)) <==> Accepts(At(Int, nest), Quote(rest, false)))
  {
    hide Quote, Next;
    if rest == [] {
      QuoteNothing(false);
    } else {
      QuoteStep(rest, false);
      var more := Quote(rest[1..], rest[0] == '"');
      FollowedAlike(nest, rest[0]);
      ReadOne(At(After, nest), rest[0], more);
      ReadOne(At(Int, nest), rest[0], more);
      BadStays(more);
    }
  }

  lemma RunBreaks(q: Reader, run: string, out: string)
    requires |run| >= 1 && Digits(run) && !WantsValue(q) && Read(q, run) != Bad
    ensures !Accepts(q, "\"" + run + "\"" + out)
  {
    hide Next;
    var d := run[0];
    assert run == [d] + run[1..];
    ReadOne(q, d, run[1..]);
    BadStays(run[1..]);
    QuoteBreaks(q, d);
    var tail := run[1..] + "\"" + out;
    assert "\"" + run + "\"" + out == ['"'] + ([d] + tail);
    ReadOne(q, '"', [d] + tail);
    ReadOne(Next(q, '"'), d, tail);
    BadStays(tail);
  }

  // ---- The condition, on the text alone ----

  /** Where a position lies, as JSON tells it: a backslash in a string takes the next character along. */
  datatype Place = Outside | Inside | Escaped

  function PlaceOf(s: string, k: nat): Place
    requires k <= |s|
  {
    if k == 0 then Outside
    else
      match PlaceOf(s, k - 1)
      case Outside => if s[k - 1] == '"' then Inside else Outside
      case Inside => if s[k - 1] == '"' then Outside else if s[k - 1] == '\\' then Escaped else Inside
      case Escaped => Inside
  }

  predicate PartOfNumber(c: char) {
    c == '-' || c == '+' || PointOrExponent(c)
  }

  /** s[a..b] is outside strings, and no sign, point or exponent joins it. */
  predicate Whole(s: string, a: nat, b: nat)
    requires a <= b <= |s|
  {
    && PlaceOf(s, a) == Outside
    && (a == 0 || !PartOfNumber(s[a - 1]))
    && (b == |s| || !PointOrExponent(s[b]))
  }

  predicate InsideString(q: Reader) {
    q.At? && (q.mode.Str? || q.mode.Esc? || q.mode.Hex?)
  }

  predicate AtEscape(q: Reader) {
    q.At? && q.mode.Esc?
  }

  /** In a number that a sign, a point or an exponent has left open. */
  predicate Joined(q: Reader) {
    q.At? && (q.mode.Minus? || q.mode.Point? || q.mode.Exp? || q.mode.ExpSign?)
  }

  predicate AfterDigit(q: Reader) {
    q.At? && (q.mode.Int? || q.mode.Frac? || q.mode.ExpDigits?)
  }

  /** The reader after the first k characters. */
  function ReadTo(s: string, k: nat): Reader
    requires k <= |s|
  {
    Read(START, s[..k])
  }

  lemma ReadToStep(s: string, k: nat)
    requires k < |s|
    ensures ReadTo(s, k + 1) == Next(ReadTo(s, k), s[k])
  {
    hide Next;
    assert s[..k + 1] == s[..k] + [s[k]];
    ReadSplit(START, s[..k], [s[k]]);
    assert [s[k]] == [s[k]] + [];
    ReadOne(ReadTo(s, k), s[k], []);
  }

  lemma NeverBad(s: string, k: nat)
    requires Json(s) && k <= |s|
    ensures ReadTo(s, k) != Bad
  {
    hide Next;
    assert s == s[..k] + s[k..];
    ReadSplit(START, s[..k], s[k..]);
    BadStays(s[k..]);
  }

  /** The reader knows where it is. */
  lemma {:induction false} ReaderPlace(s: string, k: nat)
    requires k <= |s| && Json(s)
    ensures PlaceOf(s, k) == Outside <==> !InsideString(ReadTo(s, k))
    ensures PlaceOf(s, k) == Escaped <==> AtEscape(ReadTo(s, k))
    decreases k
  {
    hide Next, ReadTo, Json;
    NeverBad(s, k);
    if k == 0 {
      AtStart(s);
    } else {
      NeverBad(s, k - 1);
      ReaderPlace(s, k - 1);
      ReadToStep(s, k - 1);
      PlaceStep(ReadTo(s, k - 1), s[k - 1]);
    }
  }

  lemma AtStart(s: string)
    ensures ReadTo(s, 0) == START
  {
  }

  lemma PlaceStep(q: Reader, c: char)
    requires q != Bad && Next(q, c) != Bad
    ensures var r := Next(q, c);
      && (!InsideString(q) ==> !AtEscape(r) && (InsideString(r) <==> c == '"'))
      && (InsideString(q) && !AtEscape(q) ==>
            (InsideString(r) <==> c != '"') && (AtEscape(r) <==> c == '\\'))
      && (AtEscape(q) ==> InsideString(r) && !AtEscape(r))
  {
  }

  /** What the next reader wants tells the character read: behind a value's place stands no part of a
      number, in an open number a sign, point or exponent. */
  lemma BeforeValue(q: Reader, c: char)
    requires q != Bad && WantsValue(Next(q, c))
    ensures !PartOfNumber(c)
  {
  }

  lemma BeforeJoined(q: Reader, c: char)
    requires q != Bad && Joined(Next(q, c))
    ensures PartOfNumber(c)
  {
  }

  lemma BeforeDigits(q: Reader, c: char)
    requires q != Bad && AfterDigit(Next(q, c))
    ensures IsDigit(c)
  {
  }

  lemma LastTells(q: Reader, c: char)
    requires q != Bad
    ensures var r := Next(q, c);
      && (WantsValue(r) ==> !PartOfNumber(c))
      && (Joined(r) ==> PartOfNumber(c))
      && (AfterDigit(r) ==> IsDigit(c))
  {
    hide Next, WantsValue, Joined, AfterDigit, PartOfNumber, IsDigit;
    if WantsValue(Next(q, c)) { BeforeValue(q, c); }
    if Joined(Next(q, c)) { BeforeJoined(q, c); }
    if AfterDigit(Next(q, c)) { BeforeDigits(q, c); }
  }

  lemma DigitTells(q: Reader, d: char)
    requires q != Bad && IsDigit(d) && Next(q, d) != Bad && !InsideString(q)
    ensures WantsValue(q) || Joined(q) || AfterDigit(q)
  {
  }

  /** A digit run starts a value exactly when it is outside strings and joined to nothing. */
  lemma WantedAtRun(s: string, a: nat)
    requires Json(s) && a < |s| && IsDigit(s[a]) && (a == 0 || !IsDigit(s[a - 1]))
    ensures WantsValue(ReadTo(s, a)) <==> PlaceOf(s, a) == Outside && (a == 0 || !PartOfNumber(s[a - 1]))
  {
    hide Next, ReadTo, Json, PlaceOf, PartOfNumber;
    var q := ReadTo(s, a);
    NeverBad(s, a);
    NeverBad(s, a + 1);
    ReadToStep(s, a);
    ReaderPlace(s, a);
    if !InsideString(q) {
      DigitTells(q, s[a]);
    }
    if a == 0 {
      AtStart(s);
    } else {
      NeverBad(s, a - 1);
      ReadToStep(s, a - 1);
      LastTells(ReadTo(s, a - 1), s[a - 1]);
    }
  }

  ghost predicate WholeFrom(s: string, i: nat) {
    forall a: nat, b: nat | i <= a && LongRun(s, a, b) :: Whole(s, a, b)
  }

  lemma OneRun(s: string, i: nat, n: nat, a: nat, b: nat)
    requires RunAt(s, i, n) && i <= a < i + n && LongRun(s, a, b)
    ensures a == i && b == i + n
  {
    hide InString;
  }

  lemma WholeFromRun(s: string, i: nat, n: nat)
    requires RunAt(s, i, n)
    ensures WholeFrom(s, i) <==> (n >= LONG ==> Whole(s, i, i + n)) && WholeFrom(s, i + n)
  {
    hide InString, Whole;
    if n >= LONG {
      assert LongRun(s, i, i + n);
    }
    forall a: nat, b: nat | i <= a < i + n && LongRun(s, a, b) ensures a == i && b == i + n {
      OneRun(s, i, n, a, b);
    }
  }

  lemma WholeFromNext(s: string, i: nat)
    requires i < |s| && (InString(s, i) || !IsDigit(s[i]))
    ensures WholeFrom(s, i) <==> WholeFrom(s, i + 1)
  {
    hide InString, Whole, LongRun;
    NoRunHere(s, i);
  }

  lemma EdgeAfter(s: string, i: nat)
    requires i < |s| && (InString(s, i) || !IsDigit(s[i]))
    ensures AtEdge(s, i + 1) && InString(s, i + 1) == (InString(s, i) != (s[i] == '"'))
  {
  }

  lemma EdgeAfterRun(s: string, i: nat, n: nat)
    requires RunAt(s, i, n)
    ensures AtEdge(s, i + n) && !InString(s, i + n)
  {
    NoFlipInRun(s, i, i + n);
  }

  lemma {:induction false} CleanFrom(s: string, i: nat)
    requires Json(s) && i <= |s| && AtEdge(s, i)
    ensures Clean(ReadTo(s, i), s[i..], InString(s, i)) <==> WholeFrom(s, i)
    decreases |s| - i
  {
    hide Clean, CleanRun, InString, Whole, LongRun, ReadTo, Next, DigitRun, Json, AtEdge;
    var q, t := ReadTo(s, i), s[i..];
    if i == |s| {
      assert t == [];
      CleanNothing(q, InString(s, i));
      NoneFrom(s);
    } else {
      CleanStep(q, t, InString(s, i));
      if s[i] == '"' || InString(s, i) || !IsDigit(s[i]) {
        assert t[1..] == s[i + 1..];
        ReadToStep(s, i);
        WholeFromNext(s, i);
        EdgeAfter(s, i);
        CleanFrom(s, i + 1);
      } else {
        CleanFromRun(s, i);
        CleanFrom(s, i + DigitRun(t));
      }
    }
  }

  lemma NoneFrom(s: string)
    ensures WholeFrom(s, |s|)
  {
  }

  lemma CleanFromRun(s: string, i: nat)
    requires Json(s) && i < |s| && AtEdge(s, i) && IsDigit(s[i]) && !InString(s, i)
    ensures var t, n := s[i..], DigitRun(s[i..]);
      && 0 < n && i + n <= |s| && AtEdge(s, i + n) && !InString(s, i + n)
      && t[n..] == s[i + n..] && Read(ReadTo(s, i), t[..n]) == ReadTo(s, i + n)
      && (WholeFrom(s, i) <==> CleanRun(ReadTo(s, i), t, n) && WholeFrom(s, i + n))
  {
    hide InString, LongRun, Next, DigitRun, Json, WholeFrom, PlaceOf, PartOfNumber, WantsValue;
    var t, n := s[i..], DigitRun(s[i..]);
    ScannedRun(s, i);
    EdgeAfterRun(s, i, n);
    WholeFromRun(s, i, n);
    WantedAtRun(s, i);
    assert s[..i + n] == s[..i] + t[..n];
    ReadSplit(START, s[..i], t[..n]);
    assert i + n < |s| ==> t[n] == s[i + n];
  }

  /** For JSON the output is JSON exactly when every long run at even quote parity is a whole value: it
      lies outside strings as JSON tells them, and no sign, point or exponent joins it. */
  lemma JsonStaysJson(s: string)
    requires Json(s)
    ensures Json(Quote(s, false)) <==> forall a: nat, b: nat | LongRun(s, a, b) :: Whole(s, a, b)
  {
    hide Clean, LongRun, Whole, Quote, Read, Complete;
    OutputAccepted(START, s, false);
    assert s[0..] == s && s[..0] == [];
    AtStart(s);
    CleanFrom(s, 0);
  }

  // ---- A negative number ----

  function Ones(n: nat): (s: string)
    ensures |s| == n && Digits(s)
  {
    seq(n, _ => '1')
  }

  lemma NegativeIsJson(ones: string)
    requires |ones| >= 1 && Digits(ones) && ones[0] == '1'
    ensures Json("-" + ones)
  {
    assert "-" + ones == ['-'] + ones && ones == ['1'] + ones[1..];
    ReadOne(START, '-', ones);
    ReadOne(At(Minus, []), '1', ones[1..]);
    DigitsStay(At(Int, []), ones[1..]);
  }

  lemma NegativeIsLong(ones: string)
    requires |ones| == LONG && Digits(ones)
    ensures var s := "-" + ones; LongRun(s, 1, LONG + 1) && !Whole(s, 1, LONG + 1)
  {
    var s := "-" + ones;
    assert !InString(s, 0);
    assert forall k | 1 <= k < LONG + 1 :: s[k] == ones[k - 1];
  }

  /** A minus and nineteen digits: JSON before, and not after. */
  lemma NegativeBreaks()
    ensures var s := "-" + Ones(LONG); Json(s) && !Json(Quote(s, false))
  {
    hide Json, Quote, Whole, LongRun;
    var ones := Ones(LONG);
    assert ones[0] == '1';
    NegativeIsJson(ones);
    NegativeIsLong(ones);
    JsonStaysJson("-" + ones);
  }
}
