/** preprocess_large_integers: quoting the integers of a JSON text that are too long for 64 bits. */
module LargeIntegers {
  import opened Characters
  import opened Sequences

  const LONG := 19

  /** How many digits the text starts with. */
  function DigitRun(s: string): (n: nat)
    ensures n <= |s|
    ensures forall k | 0 <= k < n :: IsDigit(s[k])
    ensures n < |s| ==> !IsDigit(s[n])
    ensures s != [] && IsDigit(s[0]) ==> n > 0
  {
    if s == [] || !IsDigit(s[0]) then 0 else 1 + DigitRun(s[1..])
  }

  function Quoted(run: string): string {
    if |run| >= LONG then "\"" + run + "\"" else run
  }

  /** The transducer: quotes flip the state, digit runs outside strings are taken whole. */
  function Quote(s: string, inString: bool): string
    decreases |s|
  {
    if s == [] then []
    else if s[0] == '"' then [s[0]] + Quote(s[1..], !inString)
    else if !inString && IsDigit(s[0]) then
      var n := DigitRun(s);
      Quoted(s[..n]) + Quote(s[n..], false)
    else [s[0]] + Quote(s[1..], inString)
  }

  // ---- Length ----

  lemma QuoteNothing(inString: bool)
    ensures Quote([], inString) == []
  {
  }

  lemma QuoteStep(s: string, inString: bool)
    requires s != []
    ensures Quote(s, inString)
            == if s[0] == '"' then [s[0]] + Quote(s[1..], !inString)
               else if !inString && IsDigit(s[0]) then Quoted(s[..DigitRun(s)]) + Quote(s[DigitRun(s)..], false)
               else [s[0]] + Quote(s[1..], inString)
  {
  }

  /** The characters that quotes may add to n. */
  function Room(n: nat): nat {
    2 * ((n + 1) / 20)
  }

  lemma RoomGrows(n: nat, m: nat)
    requires n <= m
    ensures Room(n) <= Room(m)
  {
  }

  /** A long run pays for its own quotes, with the character behind it if more follows. */
  lemma RoomForRun(run: nat, rest: nat)
    requires run >= LONG
    ensures Room(run) >= 2 && Room(run + 1 + rest) >= 2 + Room(rest)
  {
  }

  lemma {:induction false} QuoteLength(s: string, inString: bool)
    ensures |s| <= |Quote(s, inString)| <= |s| + 2 * ((|s| + 1) / 20)
  {
    hide Room;
    LengthWithRoom(s, inString);
    RoomIs(|s|);
  }

  lemma RoomIs(n: nat)
    ensures Room(n) == 2 * ((n + 1) / 20)
  {
  }

  lemma {:induction false} LengthWithRoom(s: string, inString: bool)
    ensures |s| <= |Quote(s, inString)| <= |s| + Room(|s|)
    decreases |s|
  {
    hide Quote, DigitRun, Room;
    if s == [] {
      QuoteNothing(inString);
    } else {
      QuoteStep(s, inString);
      RoomGrows(|s| - 1, |s|);
      if s[0] == '"' {
        LengthWithRoom(s[1..], !inString);
      } else if !inString && IsDigit(s[0]) {
        var n := DigitRun(s);
        RunLength(s, n, s[n..]);
      } else {
        LengthWithRoom(s[1..], inString);
      }
    }
  }

  lemma {:induction false} RunLength(s: string, n: nat, rest: string)
    requires 0 < n == DigitRun(s) && rest == s[n..]
    ensures |s| <= |Quoted(s[..n]) + Quote(rest, false)| <= |s| + Room(|s|)
    decreases |s|, 0
  {
    hide Quote, DigitRun, Room;
    if rest == [] {
      QuoteNothing(false);
      if n >= LONG { RoomForRun(n, 0); }
    } else {
      // No digit follows the run, so its first character needs no room of its own.
      LengthWithRoom(rest[1..], rest[0] == '"');
      QuoteStep(rest, false);
      RoomGrows(|rest| - 1, |s|);
      if n >= LONG { RoomForRun(n, |rest| - 1); }
    }
  }

  /** The output and its terminator fit the buffer of twice the input length exactly when the input
      is not empty. */
  lemma FitsTwiceTheLength(s: string)
    ensures |Quote(s, false)| + 1 <= 2 * |s| <==> |s| >= 1
  {
    QuoteLength(s, false);
  }

  // ---- The program ----

  /** The memcpy of a run. */
  method CopyRun(output: array<char>, j: nat, run: string)
    requires j + |run| <= output.Length
    modifies output
    ensures output[..j + |run|] == old(output[..j]) + run
  {
    var k := 0;
    while k < |run|
      invariant k <= |run|
      invariant output[..j + k] == old(output[..j]) + run[..k]
    {
      output[j + k] := run[k];
      assert output[..j + k + 1] == output[..j + k] + [run[k]];
      assert run[..k + 1] == run[..k] + [run[k]];
      k := k + 1;
    }
    assert run[..k] == run;
  }

  method Put(output: array<char>, j: nat, c: char) returns (next: nat)
    requires j < output.Length
    modifies output
    ensures next == j + 1 && output[..next] == old(output[..j]) + [c]
  {
    output[j] := c;
    assert output[..j + 1] == output[..j] + [output[j]];
    return j + 1;
  }

  lemma Around(before: string, run: string)
    ensures before + ['"'] + run + ['"'] == before + ("\"" + run + "\"")
  {
  }

  /** A digit run, with quotes when it is long. */
  method PutRun(output: array<char>, j: nat, run: string) returns (next: nat)
    requires j + |Quoted(run)| <= output.Length
    modifies output
    ensures next == j + |Quoted(run)| && output[..next] == old(output[..j]) + Quoted(run)
  {
    if |run| >= LONG {
      next := Put(output, j, '"');
      CopyRun(output, next, run);
      next := Put(output, next + |run|, '"');
      Around(old(output[..j]), run);
    } else {
      CopyRun(output, j, run);
      next := j + |run|;
    }
  }

  /** The inner scan: where the digit run starting at i ends. */
  method ScanDigits(input: string, i: nat) returns (end: nat)
    requires i < |input| && IsDigit(input[i])
    ensures end == i + DigitRun(input[i..]) && end <= |input|
  {
    end := i;
    while end < |input| && IsDigit(input[end])
      invariant i <= end <= |input|
      invariant forall k | i <= k < end :: IsDigit(input[k])
    {
      end := end + 1;
    }
    RunIs(input[i..], end - i);
  }

  /** The body of the main loop. */
  method Step(output: array<char>, j: nat, input: string, i: nat, inString: bool)
    returns (j': nat, i': nat, inString': bool)
    requires i < |input| && j + |Quote(input[i..], inString)| <= output.Length
    modifies output
    ensures i < i' <= |input| && j' <= output.Length
    ensures output[..j'] + Quote(input[i'..], inString') == old(output[..j]) + Quote(input[i..], inString)
  {
    hide Quote, DigitRun, Quoted;
    ghost var before := output[..j];
    var c := input[i];
    QuoteStep(input[i..], inString);
    if c == '"' || inString || !IsDigit(c) {
      assert input[i..][1..] == input[i + 1..];
      i' := i + 1;
      inString' := if c == '"' then !inString else inString;
      j' := Put(output, j, c);
      Assoc(before, [c], Quote(input[i'..], inString'));
    } else {
      i' := ScanDigits(input, i);
      inString' := inString;
      assert input[i..][..i' - i] == input[i..i'] && input[i..][i' - i..] == input[i'..];
      j' := PutRun(output, j, input[i..i']);
      Assoc(before, Quoted(input[i..i']), Quote(input[i'..], false));
    }
  }

  /** overrun: the terminator falls outside the buffer. */
  method PreprocessLargeIntegers(input: string) returns (output: array<char>, j: nat, overrun: bool)
    ensures fresh(output) && output.Length == 2 * |input| && j <= output.Length
    ensures output[..j] == Quote(input, false)
    ensures overrun <==> input == []
    ensures !overrun ==> j < output.Length && output[j] == '\0'
  {
    hide Quote;
    output := new char[2 * |input|];
    var i := 0;
    j := 0;
    var inString := false;
    FitsTwiceTheLength(input);
    QuoteLength(input, false);
    assert input[0..] == input;
    while i < |input|
      invariant i <= |input| && j <= output.Length
      invariant output[..j] + Quote(input[i..], inString) == Quote(input, false)
    {
      j, i, inString := Step(output, j, input, i, inString);
    }
    assert input[i..] == [];
    QuoteNothing(inString);
    assert output[..j] == Quote(input, false);
    overrun := j >= output.Length;
    if !overrun {
      output[j] := '\0';
      assert output[..j] == Quote(input, false);
    }
  }

  lemma {:induction false} RunIs(s: string, n: nat)
    requires n <= |s|
    requires forall k | 0 <= k < n :: IsDigit(s[k])
    requires n < |s| ==> !IsDigit(s[n])
    ensures DigitRun(s) == n
  {
    if n > 0 {
      RunIs(s[1..], n - 1);
    }
  }

  // ---- Where the quotes go ----

  /** A character of the output: one of the input's, or a quote added. */
  datatype Cell = Kept(c: char) | Added

  function Text(cells: seq<Cell>): string {
    seq(|cells|, i requires 0 <= i < |cells| => if cells[i].Kept? then cells[i].c else '"')
  }

  /** The output with the added quotes erased. */
  function Erased(cells: seq<Cell>): string {
    if cells == [] then []
    else Erased(cells[..|cells| - 1]) + if cells[|cells| - 1].Kept? then [cells[|cells| - 1].c] else []
  }

  /** An odd number of quotes lies before position k. */
  predicate InString(s: string, k: nat)
    requires k <= |s|
  {
    k > 0 && (InString(s, k - 1) != (s[k - 1] == '"'))
  }

  /** s[a..b] is a maximal run of at least 19 digits outside strings. */
  predicate LongRun(s: string, a: nat, b: nat) {
    && a + 19 <= b <= |s|
    && (forall k | a <= k < b :: IsDigit(s[k]))
    && !InString(s, a)
    && (a == 0 || !IsDigit(s[a - 1]))
    && (b == |s| || !IsDigit(s[b]))
  }

  ghost predicate RunStarts(s: string, a: nat) {
    exists b: nat :: LongRun(s, a, b)
  }

  ghost predicate RunEnds(s: string, b: nat) {
    exists a: nat :: LongRun(s, a, b)
  }

  /** The first k characters, with a quote before each long run and one after it. */
  ghost function Marked(s: string, k: nat): seq<Cell>
    requires k <= |s|
  {
    if k == 0 then []
    else
      Marked(s, k - 1) + AddedIf(RunStarts(s, k - 1)) + [Kept(s[k - 1])] + AddedIf(RunEnds(s, k))
  }

  lemma ErasedAppend(cells: seq<Cell>, c: Cell)
    ensures Erased(cells + [c]) == Erased(cells) + if c.Kept? then [c.c] else []
  {
    assert (cells + [c])[..|cells|] == cells;
  }

  lemma ErasedNothing()
    ensures Erased([]) == []
  {
  }

  ghost function AddedIf(b: bool): seq<Cell> {
    if b then [Added] else []
  }

  lemma ErasedAround(cells: seq<Cell>, a: bool, c: char, b: bool)
    ensures Erased(cells + AddedIf(a) + [Kept(c)] + AddedIf(b)) == Erased(cells) + [c]
  {
    hide Erased;
    var inside := cells + AddedIf(a);
    ErasedAppend(cells, Added);
    assert cells + [] == cells;
    ErasedAppend(inside, Kept(c));
    ErasedAppend(inside + [Kept(c)], Added);
    assert inside + [Kept(c)] + [] == inside + [Kept(c)];
  }

  lemma {:induction false} ErasingGivesInput(s: string, k: nat)
    requires k <= |s|
    ensures Erased(Marked(s, k)) == s[..k]
  {
    hide Erased, RunStarts, RunEnds;
    if k > 0 {
      ErasingGivesInput(s, k - 1);
      ErasedAround(Marked(s, k - 1), RunStarts(s, k - 1), s[k - 1], RunEnds(s, k));
      assert s[..k] == s[..k - 1] + [s[k - 1]];
    } else {
      ErasedNothing();
    }
  }

  lemma {:induction false} NoFlipInRun(s: string, a: nat, b: nat)
    requires a <= b <= |s|
    requires forall k | a <= k < b :: IsDigit(s[k])
    ensures InString(s, b) == InString(s, a)
  {
    if a < b {
      NoFlipInRun(s, a, b - 1);
    }
  }

  lemma RunIsOutside(s: string, a: nat, b: nat)
    requires LongRun(s, a, b)
    ensures forall k | a <= k < b :: IsDigit(s[k]) && !InString(s, k)
  {
    forall k | a <= k < b ensures !InString(s, k) {
      NoFlipInRun(s, a, k);
    }
  }

  /** A character that is no digit outside strings neither starts nor ends a long run. */
  lemma NoRunHere(s: string, i: nat)
    requires i < |s| && (InString(s, i) || !IsDigit(s[i]))
    ensures !RunStarts(s, i) && !RunEnds(s, i + 1)
  {
    forall a: nat, b: nat | a <= i < b ensures !LongRun(s, a, b) {
      if LongRun(s, a, b) {
        RunIsOutside(s, a, b);
      }
    }
  }

  /** Position i is not inside a digit run outside strings. */
  predicate AtEdge(s: string, i: nat)
    requires i <= |s|
  {
    0 < i < |s| && IsDigit(s[i]) && !InString(s, i) ==> !IsDigit(s[i - 1])
  }

  function Keep(s: string): seq<Cell> {
    seq(|s|, i requires 0 <= i < |s| => Kept(s[i]))
  }

  /** s[i..i + n] is a maximal run of digits, long or not, outside strings. */
  predicate RunAt(s: string, i: nat, n: nat) {
    && 0 < n <= |s| && i + n <= |s|
    && (forall l | i <= l < i + n :: IsDigit(s[l]))
    && !InString(s, i)
    && (i == 0 || !IsDigit(s[i - 1]))
    && (i + n < |s| ==> !IsDigit(s[i + n]))
  }

  /** The only long run that starts or ends in a maximal run is that run. */
  lemma RunEdges(s: string, i: nat, n: nat, k: nat)
    requires RunAt(s, i, n) && 0 < k <= n
    ensures RunStarts(s, i + k - 1) <==> k == 1 && n >= LONG
    ensures RunEnds(s, i + k) <==> k == n && n >= LONG
  {
    hide InString;
    if n >= LONG {
      assert LongRun(s, i, i + n);
    }
    var last, end := i + k - 1, i + k;
    forall b: nat ensures LongRun(s, last, b) ==> k == 1 && b <= i + n {
    }
    forall a: nat ensures LongRun(s, a, end) ==> k == n && a == i {
    }
  }

  lemma MarkedStep(s: string, k: nat)
    requires 0 < k <= |s|
    ensures Marked(s, k)
            == Marked(s, k - 1) + AddedIf(RunStarts(s, k - 1)) + [Kept(s[k - 1])] + AddedIf(RunEnds(s, k))
  {
  }

  /** Inside the run that starts at i, k characters on. */
  lemma {:induction false} CellsOfRun(s: string, i: nat, n: nat, k: nat)
    requires RunAt(s, i, n) && 0 < k <= n
    ensures Marked(s, i + k)
            == Marked(s, i) + AddedIf(n >= LONG) + Keep(s[i..i + k]) + AddedIf(n >= LONG && k == n)
  {
    hide Marked, RunStarts, RunEnds, Keep, InString;
    MarkedStep(s, i + k);
    RunEdges(s, i, n, k);
    KeepStep(s, i, k);
    var head, c := Marked(s, i) + AddedIf(n >= LONG), [Kept(s[i + k - 1])];
    if k == 1 {
      assert Marked(s, i + 1) == head + c + AddedIf(n >= LONG && k == n);
    } else {
      CellsOfRun(s, i, n, k - 1);
      var body := Keep(s[i..i + k - 1]);
      assert Marked(s, i + k - 1) == head + body + [];
      assert head + body + [] + [] + c == head + (body + c);
    }
  }

  lemma KeepStep(s: string, i: nat, k: nat)
    requires 0 < k && i + k <= |s|
    ensures Keep(s[i..i + k]) == Keep(s[i..i + k - 1]) + [Kept(s[i + k - 1])]
    ensures k == 1 ==> Keep(s[i..i + k]) == [Kept(s[i + k - 1])]
  {
  }

  lemma TextConcat(a: seq<Cell>, b: seq<Cell>)
    ensures Text(a + b) == Text(a) + Text(b)
  {
  }

  lemma TextOfRun(cells: seq<Cell>, run: string)
    ensures var long := AddedIf(|run| >= LONG);
            Text(cells + long + Keep(run) + long) == Text(cells) + Quoted(run)
  {
    hide Text;
    var long := AddedIf(|run| >= LONG);
    TextConcat(cells + long + Keep(run), long);
    TextConcat(cells + long, Keep(run));
    TextConcat(cells, long);
    TextOfKept(run);
    TextNothing();
    TextOfAdded();
    assert Text(cells) + [] + run + [] == Text(cells) + run;
    assert Text(cells) + "\"" + run + "\"" == Text(cells) + ("\"" + run + "\"");
  }

  lemma TextOfAdded()
    ensures Text([Added]) == "\""
  {
  }

  lemma TextOfKept(run: string)
    ensures Text(Keep(run)) == run
  {
  }

  /** The digit run the scan finds at an edge is maximal. */
  lemma ScannedRun(s: string, i: nat)
    requires i < |s| && AtEdge(s, i) && IsDigit(s[i]) && !InString(s, i)
    ensures RunAt(s, i, DigitRun(s[i..]))
  {
    hide InString;
    var t, n := s[i..], DigitRun(s[i..]);
    assert t[0] == s[i];
    assert forall l | i <= l < i + n :: s[l] == t[l - i];
    assert i + n < |s| ==> s[i + n] == t[n];
  }

  lemma {:induction false} WalkFrom(s: string, i: nat)
    requires i <= |s| && AtEdge(s, i)
    ensures Text(Marked(s, |s|)) == Text(Marked(s, i)) + Quote(s[i..], InString(s, i))
    decreases |s| - i
  {
    hide RunStarts, RunEnds, Text, Marked, Quote, DigitRun, Quoted;
    if i == |s| {
      assert s[i..] == [];
      QuoteNothing(InString(s, i));
    } else {
      QuoteStep(s[i..], InString(s, i));
      if s[i] == '"' || InString(s, i) || !IsDigit(s[i]) {
        assert s[i..][1..] == s[i + 1..];
        NoRunHere(s, i);
        MarkedStep(s, i + 1);
        assert Marked(s, i + 1) == Marked(s, i) + [Kept(s[i])];
        TextConcat(Marked(s, i), [Kept(s[i])]);
        TextOne(s[i]);
        WalkFrom(s, i + 1);
      } else {
        WalkRun(s, i);
        WalkFrom(s, i + DigitRun(s[i..]));
      }
    }
  }

  lemma WalkRun(s: string, i: nat)
    requires i < |s| && AtEdge(s, i) && IsDigit(s[i]) && !InString(s, i)
    ensures var n := DigitRun(s[i..]);
      && 0 < n && i + n <= |s| && AtEdge(s, i + n) && !InString(s, i + n)
      && s[i..][n..] == s[i + n..]
      && Text(Marked(s, i + n)) == Text(Marked(s, i)) + Quoted(s[i..][..n])
  {
    hide Text, Marked, DigitRun, InString, Quoted, Keep;
    ScannedRun(s, i);
    var n := DigitRun(s[i..]);
    assert s[i..][..n] == s[i..i + n];
    CellsOfRun(s, i, n, n);
    TextOfRun(Marked(s, i), s[i..i + n]);
    NoFlipInRun(s, i, i + n);
  }

  lemma TextOne(c: char)
    ensures Text([Kept(c)]) == [c]
  {
  }

  lemma TextNothing()
    ensures Text([]) == []
  {
  }

  /** The output is the input with a quote before and after each maximal run of at least 19 digits
      outside strings, and nowhere else; erasing the added quotes gives the input back. */
  lemma QuotesGoAroundLongRuns(s: string)
    ensures Quote(s, false) == Text(Marked(s, |s|))
    ensures Erased(Marked(s, |s|)) == s
  {
    WalkFrom(s, 0);
    TextNothing();
    assert s[0..] == s;
    ErasingGivesInput(s, |s|);
  }

  // ---- Twice is once ----

  lemma RunThen(run: string, t: string)
    requires forall k | 0 <= k < |run| :: IsDigit(run[k])
    requires t == [] || !IsDigit(t[0])
    ensures DigitRun(run + t) == |run|
    ensures (run + t)[..|run|] == run && (run + t)[|run|..] == t
  {
    RunIs(run + t, |run|);
  }

  lemma StartsAlike(s: string, inString: bool)
    requires s == [] || !IsDigit(s[0])
    ensures Quote(s, inString) == [] || !IsDigit(Quote(s, inString)[0])
  {
  }

  lemma {:induction false} CopiedInString(run: string, t: string)
    requires forall k | 0 <= k < |run| :: IsDigit(run[k])
    ensures Quote(run + t, true) == run + Quote(t, true)
  {
    if run == [] {
      assert run + t == t;
    } else {
      assert (run + t)[1..] == run[1..] + t;
      CopiedInString(run[1..], t);
    }
  }

  /** Preprocessing a preprocessed text changes nothing. */
  lemma {:induction false} QuoteTwice(s: string, inString: bool)
    ensures Quote(Quote(s, inString), inString) == Quote(s, inString)
    decreases |s|
  {
    var o := Quote(s, inString);
    if s == [] {
    } else if s[0] == '"' {
      assert o[1..] == Quote(s[1..], !inString);
      QuoteTwice(s[1..], !inString);
    } else if !inString && IsDigit(s[0]) {
      var n := DigitRun(s);
      var run, rest := s[..n], Quote(s[n..], false);
      QuoteTwice(s[n..], false);
      StartsAlike(s[n..], false);
      TwiceRun(run, rest);
    } else {
      assert o[1..] == Quote(s[1..], inString);
      QuoteTwice(s[1..], inString);
    }
  }

  lemma TwiceRun(run: string, rest: string)
    requires run != [] && forall k | 0 <= k < |run| :: IsDigit(run[k])
    requires Quote(rest, false) == rest && (rest == [] || !IsDigit(rest[0]))
    ensures Quote(Quoted(run) + rest, false) == Quoted(run) + rest
  {
    hide Quote, DigitRun;
    if |run| >= LONG {
      TwiceLongRun(run, rest);
    } else {
      RunThen(run, rest);
      assert (run + rest)[0] == run[0];
      QuoteStep(run + rest, false);
    }
  }

  lemma TwiceLongRun(run: string, rest: string)
    requires |run| >= LONG && forall k | 0 <= k < |run| :: IsDigit(run[k])
    requires Quote(rest, false) == rest
    ensures Quote(Quoted(run) + rest, false) == Quoted(run) + rest
  {
    hide Quote, DigitRun;
    var tail := "\"" + rest;
    var o := Quoted(run) + rest;
    assert o[0] == '"' && o[1..] == run + tail;
    QuoteStep(o, false);
    CopiedInString(run, tail);
    assert tail[1..] == rest;
    QuoteStep(tail, true);
    assert Quote(o, false) == ['"'] + (run + tail);
    assert o == ['"'] + (run + tail);
  }
}
