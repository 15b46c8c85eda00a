/** escape_json_string: a C string made safe between JSON quotes, in a buffer of given size. */
module EscapeJson {
  import opened Options

  /** The escape of one character. */
  function EscapeChar(c: char): (e: string)
    ensures 1 <= |e| <= 2
  {
    if c == '"' || c == '\\' then ['\\', c]
    else if c == '\n' then "\\n"
    else if c == '\r' then "\\r"
    else if c == '\t' then "\\t"
    else [c]
  }

  function Escape(s: string): string {
    if s == [] then [] else Escape(s[..|s| - 1]) + EscapeChar(s[|s| - 1])
  }

  /** What a reader of JSON makes of the escapes; None where a backslash starts none of them. */
  function Unescape(t: string): Option<string> {
    if t == [] then Some([])
    else if t[0] != '\\' then Prepend(t[0], Unescape(t[1..]))
    else if |t| == 1 then None
    else if t[1] == '"' || t[1] == '\\' then Prepend(t[1], Unescape(t[2..]))
    else if t[1] == 'n' then Prepend('\n', Unescape(t[2..]))
    else if t[1] == 'r' then Prepend('\r', Unescape(t[2..]))
    else if t[1] == 't' then Prepend('\t', Unescape(t[2..]))
    else None
  }

  function Prepend(c: char, rest: Option<string>): Option<string> {
    if rest.None? then None else Some([c] + rest.value)
  }

  lemma UnescapeOne(c: char, t: string)
    ensures Unescape(EscapeChar(c) + t) == Prepend(c, Unescape(t))
  {
    var u := EscapeChar(c) + t;
    assert |EscapeChar(c)| == 2 ==> u[2..] == t;
    assert |EscapeChar(c)| == 1 ==> u[1..] == t;
  }

  lemma {:induction false} UnescapeThen(s: string, t: string)
    ensures Unescape(Escape(s) + t)
            == if Unescape(t).None? then None else Some(s + Unescape(t).value)
  {
    hide Unescape, EscapeChar;
    if s == [] {
      assert Escape(s) + t == t;
      assert Unescape(t).Some? ==> s + Unescape(t).value == Unescape(t).value;
    } else {
      var u, c := s[..|s| - 1], s[|s| - 1];
      assert Escape(s) + t == Escape(u) + (EscapeChar(c) + t);
      UnescapeThen(u, EscapeChar(c) + t);
      UnescapeOne(c, t);
      if Unescape(t).Some? {
        assert u + ([c] + Unescape(t).value) == s + Unescape(t).value;
      }
    }
  }

  /** Unescaping undoes escaping, on every text. */
  lemma UnescapeUndoes(s: string)
    ensures Unescape(Escape(s)) == Some(s)
  {
    UnescapeThen(s, "");
    assert Escape(s) + "" == Escape(s) && s + "" == s;
  }

  lemma {:induction false} EscapeLength(s: string, k: nat)
    requires k <= |s|
    ensures |s[..k]| <= |Escape(s[..k])| <= 2 * k
    ensures |Escape(s[..k])| + (|s| - k) <= |Escape(s)|
    decreases |s|
  {
    if k < |s| {
      assert s[..|s| - 1][..k] == s[..k];
      EscapeLength(s[..|s| - 1], k);
    } else {
      assert s[..k] == s;
      if s != [] {
        EscapeLength(s[..|s| - 1], |s| - 1);
        assert s[..|s| - 1][..|s| - 1] == s[..|s| - 1];
      }
    }
  }

  /** The loop stops at i: the text is over, or two more characters and a terminator would not fit. */
  predicate StopsAt(s: string, size: nat, i: nat) {
    i <= |s| && (i == |s| || |Escape(s[..i])| + 2 >= size)
  }

  /** How much of the text is taken: the first stopping place. */
  function Taken(s: string, size: nat): (k: nat)
    ensures StopsAt(s, size, k) && forall l | 0 <= l < k :: !StopsAt(s, size, l)
  {
    TakenFrom(s, size, 0)
  }

  function TakenFrom(s: string, size: nat, i: nat): (k: nat)
    requires i <= |s| && forall l | 0 <= l < i :: !StopsAt(s, size, l)
    ensures StopsAt(s, size, k) && forall l | 0 <= l < k :: !StopsAt(s, size, l)
    decreases |s| - i
  {
    if StopsAt(s, size, i) then i else TakenFrom(s, size, i + 1)
  }

  /** The buffer takes the whole escape exactly when there is room for two characters and a terminator
      before the last one is written. */
  predicate HasRoom(s: string, size: nat) {
    s == [] || |Escape(s[..|s| - 1])| + 2 < size
  }

  /** A C string ends at its first NUL, or with the bytes received. */
  function CText(s: string): (t: string)
    ensures t <= s && '\0' !in t
    ensures t == s <==> '\0' !in s
    ensures |t| < |s| ==> s[|t|] == '\0'
  {
    if s == [] || s[0] == '\0' then []
    else
      var t := CText(s[1..]);
      assert s == [s[0]] + s[1..];
      [s[0]] + t
  }

  method EscapeJsonString(input: string, output: array<char>) returns (j: nat)
    requires output.Length >= 1
    modifies output
    ensures j < output.Length && output[j] == '\0'
    ensures output[..j] == Escape(CText(input)[..Taken(CText(input), output.Length)])
  {
    hide EscapeChar;
    ghost var text := CText(input);
    j := 0;
    var i := 0;
    while i < |input| && input[i] != '\0' && j + 2 < output.Length
      invariant 0 <= i <= |text| && j < output.Length
      invariant output[..j] == Escape(text[..i])
      invariant forall k | 0 <= k < i :: !StopsAt(text, output.Length, k)
    {
      assert i < |text| && text[i] == input[i];
      j := EscapeOne(input[i], output, j);
      assert text[..i + 1][..i] == text[..i];
      i := i + 1;
    }
    assert StopsAt(text, output.Length, i) && Taken(text, output.Length) == i;
    ghost var escaped := output[..j];
    output[j] := '\0';
    assert output[..j] == escaped;
  }

  /** The switch of the loop body. */
  method EscapeOne(c: char, output: array<char>, j: nat) returns (next: nat)
    requires j + 2 < output.Length
    modifies output
    ensures next < output.Length && output[..next] == old(output[..j]) + EscapeChar(c)
  {
    match c
    case '"' => next := PutPair(output, j, c);
    case '\\' => next := PutPair(output, j, c);
    case '\n' => next := PutPair(output, j, 'n');
    case '\r' => next := PutPair(output, j, 'r');
    case '\t' => next := PutPair(output, j, 't');
    case _ =>
      output[j] := c;
      next := j + 1;
      assert output[..next] == output[..j] + [output[j]];
  }

  method PutPair(output: array<char>, j: nat, c: char) returns (next: nat)
    requires j + 2 < output.Length
    modifies output
    ensures next == j + 2 && output[..next] == old(output[..j]) + ['\\', c]
  {
    output[j] := '\\';
    output[j + 1] := c;
    next := j + 2;
    assert output[..next] == output[..j] + [output[j], output[j + 1]];
  }

  /** The stopping place is the whole text exactly when the buffer has room; twice the length plus
      one always is enough, as for the 2047 bytes received into 4096. */
  lemma WholeTextIsTaken(s: string, size: nat)
    ensures Taken(s, size) == |s| <==> HasRoom(s, size)
    ensures 2 * |s| < size ==> HasRoom(s, size)
  {
    hide Escape;
    var i := Taken(s, size);
    if s != [] {
      EscapeLength(s, |s| - 1);
      if i < |s| {
        EscapeMonotone(s, i, |s| - 1);
      } else {
        assert !StopsAt(s, size, |s| - 1);
      }
    }
  }

  /** A text whose escape would just fit is cut exactly when its last character needs no escape and
      fills the buffer: the loop wants room for a pair before every character. */
  lemma FittingTextIsCut(s: string, size: nat)
    requires |Escape(s)| + 1 <= size
    ensures Taken(s, size) < |s|
            <==> s != [] && |EscapeChar(s[|s| - 1])| == 1 && |Escape(s)| + 1 == size
  {
    hide EscapeChar;
    WholeTextIsTaken(s, size);
  }

  /** Two letters in three bytes: only the first is written. */
  lemma TwoLettersInThree()
    ensures |Escape("ab")| + 1 == 3 && Taken("ab", 3) == 1
  {
    assert "ab"[..1] == "a" && "ab"[..0] == "" && "a"[..0] == "";
    assert Escape("a") == "a" && Escape("ab") == "ab";
    assert !StopsAt("ab", 3, 0) && StopsAt("ab", 3, 1);
  }

  lemma EscapeMonotone(s: string, i: nat, k: nat)
    requires i <= k <= |s|
    ensures |Escape(s[..i])| <= |Escape(s[..k])|
  {
    assert s[..k][..i] == s[..i];
    EscapeLength(s[..k], i);
  }

  /** Reading back what the buffer holds gives a prefix of the input, never cut inside an escape
      pair, and all of it exactly when there is room. */
  lemma OutputReadsBack(s: string, size: nat)
    ensures var i := Taken(s, size);
      && Unescape(Escape(s[..i])) == Some(s[..i])
      && (Unescape(Escape(s[..i])) == Some(s) <==> HasRoom(s, size))
  {
    hide Unescape, Escape, HasRoom;
    var i := Taken(s, size);
    UnescapeUndoes(s[..i]);
    WholeTextIsTaken(s, size);
    assert s[..i] == s <==> i == |s|;
  }

  // ---- Is the output a JSON string? ----

  /** What may stand between the quotes of a JSON string (section 7 of RFC 8259), among the escapes
      used here: no control character, no bare quote, no backslash but before an escaped character. */
  predicate JsonBody(t: string) {
    t == [] ||
    if t[0] == '\\' then
      |t| >= 2 && t[1] in {'"', '\\', 'n', 'r', 't'} && JsonBody(t[2..])
    else t[0] >= ' ' && t[0] != '"' && JsonBody(t[1..])
  }

  /** A control character the function does not know how to escape. */
  predicate Unescapable(c: char) {
    c < ' ' && c != '\n' && c != '\r' && c != '\t'
  }

  lemma BodyOne(c: char, t: string)
    ensures JsonBody(EscapeChar(c) + t) <==> !Unescapable(c) && JsonBody(t)
  {
    var u := EscapeChar(c) + t;
    assert |EscapeChar(c)| == 2 ==> u[2..] == t;
    assert |EscapeChar(c)| == 1 ==> u[1..] == t;
  }

  lemma {:induction false} BodyThen(s: string, t: string)
    ensures JsonBody(Escape(s) + t) <==> JsonBody(t) && forall k | 0 <= k < |s| :: !Unescapable(s[k])
  {
    hide JsonBody, EscapeChar, Unescapable;
    if s == [] {
      assert Escape(s) + t == t;
    } else {
      var u, c := s[..|s| - 1], s[|s| - 1];
      assert Escape(s) + t == Escape(u) + (EscapeChar(c) + t);
      BodyThen(u, EscapeChar(c) + t);
      BodyOne(c, t);
      assert forall k | 0 <= k < |u| :: u[k] == s[k];
    }
  }

  /** The escaped text is the body of a JSON string exactly when the input has no control character
      other than newline, carriage return and tab. */
  lemma OutputIsJson(s: string)
    ensures JsonBody(Escape(s)) <==> forall k | 0 <= k < |s| :: !Unescapable(s[k])
  {
    BodyThen(s, "");
    assert Escape(s) + "" == Escape(s);
  }

  /** A control character goes through as it is. */
  lemma ControlPassesRaw()
    ensures var bell := [7 as char]; Escape(bell) == bell && !JsonBody(Escape(bell))
  {
    var bell := [7 as char];
    assert bell[..0] == [];
    OutputIsJson(bell);
  }
}
