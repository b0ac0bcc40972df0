/** String helpers with the meaning of the Kotlin standard-library calls the
    library relies on: `joinToString`, `split`, `trim`, `isBlank`,
    `Int.toString()` and counting characters. */
module Text {

  /** `parts.joinToString(sep)`: the parts separated by `sep`, nothing around. */
  function Join(parts: seq<string>, sep: string): string
  {
    if |parts| == 0 then ""
    else if |parts| == 1 then parts[0]
    else Join(parts[..|parts| - 1], sep) + sep + parts[|parts| - 1]
  }

  lemma {:induction false} JoinCons(x: string, rest: seq<string>, sep: string)
    requires rest != []
    ensures Join([x] + rest, sep) == x + sep + Join(rest, sep)
  {
    if |rest| == 1 {
      assert ([x] + rest)[..1] == [x];
    } else {
      var n := |rest|;
      assert ([x] + rest)[..n] == [x] + rest[..n - 1];
      JoinCons(x, rest[..n - 1], sep);
    }
  }

  /** Number of occurrences of `c` in `s`. */
  function Count(c: char, s: string): nat
  {
    if s == [] then 0 else (if s[0] == c then 1 else 0) + Count(c, s[1..])
  }

  lemma {:induction false} CountConcat(c: char, a: string, b: string)
    ensures Count(c, a + b) == Count(c, a) + Count(c, b)
  {
    if a != [] {
      assert (a + b)[0] == a[0];
      assert (a + b)[1..] == a[1..] + b;
      CountConcat(c, a[1..], b);
    } else {
      assert a + b == b;
    }
  }

  lemma CountAbsent(c: char, s: string)
    requires c !in s
    ensures Count(c, s) == 0
  {
    if s != [] {
      assert s[0] in s;
      assert forall i :: 0 <= i < |s[1..]| ==> s[1..][i] == s[i + 1];
      CountAbsent(c, s[1..]);
    }
  }

  /** Number of `?` parameter placeholders in a piece of SQL text. */
  function Marks(s: string): nat { Count('?', s) }

  /** Placeholders over a list of SQL fragments. */
  function MarksAll(parts: seq<string>): nat
  {
    if parts == [] then 0 else MarksAll(parts[..|parts| - 1]) + Marks(parts[|parts| - 1])
  }

  lemma MarksAllSnoc(parts: seq<string>, x: string)
    ensures MarksAll(parts + [x]) == MarksAll(parts) + Marks(x)
  {
    assert (parts + [x])[..|parts|] == parts;
  }

  lemma {:induction false} MarksAllConcat(a: seq<string>, b: seq<string>)
    ensures MarksAll(a + b) == MarksAll(a) + MarksAll(b)
    decreases |b|
  {
    if b != [] {
      var n := |b|;
      assert a + b == (a + b[..n - 1]) + [b[n - 1]];
      MarksAllSnoc(a + b[..n - 1], b[n - 1]);
      MarksAllConcat(a, b[..n - 1]);
      assert b == b[..n - 1] + [b[n - 1]];
      MarksAllSnoc(b[..n - 1], b[n - 1]);
    } else {
      assert a + b == a;
    }
  }

  lemma MarksConcat3(a: string, b: string, c: string)
    ensures Marks(a + b + c) == Marks(a) + Marks(b) + Marks(c)
  {
    CountConcat('?', a + b, c);
    CountConcat('?', a, b);
  }

  /** A separator without placeholders adds none when joining. */
  lemma {:induction false} JoinMarks(parts: seq<string>, sep: string)
    requires '?' !in sep
    ensures Marks(Join(parts, sep)) == MarksAll(parts)
    decreases |parts|
  {
    if |parts| == 1 {
      assert parts == [] + [parts[0]];
      MarksAllSnoc([], parts[0]);
    } else if |parts| > 1 {
      var n := |parts|;
      JoinMarks(parts[..n - 1], sep);
      CountAbsent('?', sep);
      MarksConcat3(Join(parts[..n - 1], sep), sep, parts[n - 1]);
      assert parts == parts[..n - 1] + [parts[n - 1]];
      MarksAllSnoc(parts[..n - 1], parts[n - 1]);
    }
  }

  // ---------------------------------------------------------------------
  // Decimal rendering (`Int.toString()` / `Long.toString()`)

  function Digit(d: nat): char
    requires d < 10
  {
    "0123456789"[d]
  }

  function NatToString(n: nat): (s: string)
    ensures |s| >= 1
    ensures n >= 10 ==> |s| >= 2
    decreases n
  {
    if n < 10 then [Digit(n)] else NatToString(n / 10) + [Digit(n % 10)]
  }

  /** Decimal text with a leading `-` for negative numbers. */
  function IntToString(i: int): string
  {
    if i < 0 then "-" + NatToString(-i) else NatToString(i)
  }

  predicate IsDigit(c: char) { '0' <= c <= '9' }

  lemma {:induction false} NatToStringDigits(n: nat)
    ensures forall k :: 0 <= k < |NatToString(n)| ==> IsDigit(NatToString(n)[k])
    decreases n
  {
    if n >= 10 {
      NatToStringDigits(n / 10);
    }
  }

  /** Decimal text never contains a placeholder, a comma or whitespace. */
  lemma IntToStringPlain(i: int)
    ensures forall k :: 0 <= k < |IntToString(i)| ==>
      IsDigit(IntToString(i)[k]) || (k == 0 && IntToString(i)[k] == '-')
  {
    if i < 0 { NatToStringDigits(-i); } else { NatToStringDigits(i); }
  }

  lemma IntToStringNoMark(i: int)
    ensures '?' !in IntToString(i)
    ensures Marks(IntToString(i)) == 0
  {
    IntToStringPlain(i);
    CountAbsent('?', IntToString(i));
  }

  /** Distinct numbers have distinct decimal texts. */
  lemma {:induction false} NatToStringInjective(a: nat, b: nat)
    requires NatToString(a) == NatToString(b)
    ensures a == b
    decreases a
  {
    if a >= 10 && b >= 10 {
      var sa, sb := NatToString(a / 10), NatToString(b / 10);
      assert NatToString(a) == sa + [Digit(a % 10)];
      assert NatToString(b) == sb + [Digit(b % 10)];
      assert sa == NatToString(a)[..|NatToString(a)| - 1];
      assert sb == NatToString(b)[..|NatToString(b)| - 1];
      NatToStringInjective(a / 10, b / 10);
      assert Digit(a % 10) == Digit(b % 10);
    } else if a < 10 && b < 10 {
      assert Digit(a) == Digit(b);
    }
  }

  // ---------------------------------------------------------------------
  // Whitespace, blank strings, trimming and splitting

  /** Java regex `\s`: space, tab, newline, vertical tab, form feed, return. */
  predicate IsRegexSpace(c: char)
  {
    c == ' ' || c == '\t' || c == '\n' || c == '\U{000B}' || c == '\U{000C}' || c == '\r'
  }

  /** Kotlin `Char.isWhitespace()`: the regex spaces, the file/group/record/unit
      separators and the Unicode space, line and paragraph separators. */
  predicate IsWhitespace(c: char)
  {
    IsRegexSpace(c) || ('\U{001C}' <= c <= '\U{001F}') || c == '\U{00A0}' || c == '\U{1680}'
    || ('\U{2000}' <= c <= '\U{200A}') || c == '\U{2028}' || c == '\U{2029}' || c == '\U{202F}'
    || c == '\U{205F}' || c == '\U{3000}'
  }

  /** Characters the regex `.` does not match. */
  predicate IsLineTerminator(c: char)
  {
    c == '\n' || c == '\r' || c == '\U{0085}' || c == '\U{2028}' || c == '\U{2029}'
  }

  /** Kotlin `isBlank()`: empty or only whitespace. */
  predicate IsBlank(s: string)
  {
    forall k :: 0 <= k < |s| ==> IsWhitespace(s[k])
  }

  /** Blank text holds no placeholder. */
  lemma BlankNoMarks(s: string)
    requires IsBlank(s)
    ensures Marks(s) == 0
  {
    CountAbsent('?', s);
  }

  function TrimStart(s: string): (r: string)
    ensures |r| <= |s|
  {
    if s != [] && IsWhitespace(s[0]) then TrimStart(s[1..]) else s
  }

  function TrimEnd(s: string): (r: string)
    ensures |r| <= |s|
  {
    if s != [] && IsWhitespace(s[|s| - 1]) then TrimEnd(s[..|s| - 1]) else s
  }

  /** Kotlin `trim()`: whitespace removed at both ends. */
  function Trim(s: string): string
  {
    TrimEnd(TrimStart(s))
  }

  /** Kotlin `split(",")` with a one-character delimiter: every piece is kept,
      so `k` delimiters give `k + 1` pieces, empty ones included. */
  function SplitOn(s: string, d: char): (r: seq<string>)
    ensures |r| == Count(d, s) + 1
  {
    if s == [] then [""]
    else
      var rest := SplitOn(s[1..], d);
      if s[0] == d then [""] + rest else [[s[0]] + rest[0]] + rest[1..]
  }

  /** Length of the run of regex spaces at the start of `s`. */
  function SpaceRun(s: string): (n: nat)
    ensures n <= |s|
  {
    if s != [] && IsRegexSpace(s[0]) then 1 + SpaceRun(s[1..]) else 0
  }

  /** Kotlin `split(Regex("\\s+"))`: the pieces between maximal runs of
      regex spaces, empty pieces included. */
  function SplitSpaces(s: string): (r: seq<string>)
    ensures |r| >= 1
    decreases |s|
  {
    if s == [] then [""]
    else if IsRegexSpace(s[0]) then [""] + SplitSpaces(s[SpaceRun(s)..])
    else
      var rest := SplitSpaces(s[1..]);
      [[s[0]] + rest[0]] + rest[1..]
  }

  /** Splitting around one delimiter splits each side on its own. */
  lemma {:induction false} SplitOnConcat(a: string, b: string, d: char)
    ensures SplitOn(a + [d] + b, d) == SplitOn(a, d) + SplitOn(b, d)
    decreases |a|
  {
    if a == [] {
      assert a + [d] + b == [d] + b;
      assert ([d] + b)[1..] == b;
    } else {
      assert (a + [d] + b)[1..] == a[1..] + [d] + b;
      assert (a + [d] + b)[0] == a[0];
      SplitOnConcat(a[1..], b, d);
    }
  }

  /** Text without the delimiter is one piece. */
  lemma {:induction false} SplitOnNone(a: string, d: char)
    requires d !in a
    ensures SplitOn(a, d) == [a]
    decreases |a|
  {
    if a != [] {
      assert a[0] in a;
      assert forall k :: 0 <= k < |a[1..]| ==> a[1..][k] == a[k + 1];
      SplitOnNone(a[1..], d);
      assert [a[0]] + a[1..] == a;
    }
  }

  /** Trailing trimming leaves a prefix, and keeps every non-blank character. */
  lemma {:induction false} TrimEndPrefix(s: string, i: nat)
    requires i < |s| && !IsWhitespace(s[i])
    ensures |TrimEnd(s)| > i && TrimEnd(s) == s[..|TrimEnd(s)|]
    decreases |s|
  {
    if IsWhitespace(s[|s| - 1]) {
      TrimEndPrefix(s[..|s| - 1], i);
    }
  }

  /** Trailing trimming does not reach past a non-blank character. */
  lemma {:induction false} TrimEndKeep(a: string, b: string, i: nat)
    requires i < |b| && !IsWhitespace(b[i])
    ensures TrimEnd(a + b) == a + TrimEnd(b)
    decreases |b|
  {
    var s := a + b;
    assert s[|s| - 1] == b[|b| - 1];
    if IsWhitespace(b[|b| - 1]) {
      assert s[..|s| - 1] == a + b[..|b| - 1];
      TrimEndKeep(a, b[..|b| - 1], i);
    }
  }

  /** Text that starts with a non-blank character, followed by a tail whose
      second character is non-blank, loses only the tail's trailing blanks. */
  lemma TrimAround(front: string, tail: string) returns (rest: string)
    requires front != [] && !IsWhitespace(front[0])
    requires |tail| > 1 && !IsWhitespace(tail[1])
    ensures |rest| > 1 && rest[0] == tail[0]
    ensures Trim(front + tail) == front + rest
  {
    var d := front + tail;
    assert d[0] == front[0];
    assert TrimStart(d) == d;
    TrimEndKeep(front, tail, 1);
    TrimEndPrefix(tail, 1);
    rest := TrimEnd(tail);
  }

  /** A leading word without spaces is the first token. */
  lemma {:induction false} WordFirst(w: string, r: string)
    requires w != [] && forall k :: 0 <= k < |w| ==> !IsRegexSpace(w[k])
    requires r != [] && IsRegexSpace(r[0])
    ensures SplitSpaces(w + r) == [w] + SplitSpaces(r[SpaceRun(r)..])
    decreases |w|
  {
    var s := w + r;
    var tail := SplitSpaces(r[SpaceRun(r)..]);
    assert s[0] == w[0] && !IsRegexSpace(s[0]);
    assert s[1..] == w[1..] + r;
    var rest := SplitSpaces(s[1..]);
    assert SplitSpaces(s) == [[s[0]] + rest[0]] + rest[1..];
    if |w| == 1 {
      assert s[1..] == r;
      assert rest == [""] + tail;
      assert [s[0]] + rest[0] == w;
    } else {
      WordFirst(w[1..], r);
      assert rest == [w[1..]] + tail;
      assert [s[0]] + rest[0] == w;
    }
  }

  /** Parentheses add no `?`. */
  lemma ParenMarks(s: string)
    ensures Marks("(" + s + ")") == Marks(s)
  {
    MarksConcat3("(", s, ")");
    CountAbsent('?', "(");
    CountAbsent('?', ")");
  }
}
