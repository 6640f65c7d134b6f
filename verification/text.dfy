/** The string primitives the pipeline relies on, written out explicitly:
    .NET's `Char.IsWhiteSpace`, `String.Trim()`, `String.Split(char)` and
    `String.Replace(string, "")` for a one-character pattern. */
module Text {

  /** The characters .NET `Char.IsWhiteSpace` accepts: U+0009..U+000D,
      the space, U+0085, U+00A0 and the Unicode space, line and paragraph
      separators (U+1680, U+2000..U+200A, U+2028, U+2029, U+202F, U+205F,
      U+3000). */
  const WhiteSpace: set<char> := {
    '\t', '\n', '\U{B}', '\U{C}', '\r', ' ', '\U{85}', '\U{A0}', '\U{1680}',
    '\U{2000}', '\U{2001}', '\U{2002}', '\U{2003}', '\U{2004}', '\U{2005}',
    '\U{2006}', '\U{2007}', '\U{2008}', '\U{2009}', '\U{200A}',
    '\U{2028}', '\U{2029}', '\U{202F}', '\U{205F}', '\U{3000}'
  }

  predicate IsWhiteSpace(c: char) {
    c in WhiteSpace
  }

  predicate AllWhiteSpace(s: string) {
    forall k :: 0 <= k < |s| ==> IsWhiteSpace(s[k])
  }

  /** A string with neither leading nor trailing white space. */
  predicate Trimmed(s: string) {
    |s| > 0 ==> !IsWhiteSpace(s[0]) && !IsWhiteSpace(s[|s| - 1])
  }

  /** Number of occurrences of `c` in `s`. */
  function Count(s: string, c: char): nat {
    if |s| == 0 then 0 else (if s[0] == c then 1 else 0) + Count(s[1..], c)
  }

  lemma CountZero(s: string, c: char)
    ensures Count(s, c) == 0 <==> c !in s
  {
    if |s| > 0 {
      CountZero(s[1..], c);
      assert s == [s[0]] + s[1..];
    }
  }

  /** `String.TrimStart()`: drops the white space prefix. */
  function TrimStart(s: string): (r: string)
    ensures |r| <= |s| && r == s[|s| - |r|..]
    ensures AllWhiteSpace(s[..|s| - |r|])
    ensures |r| > 0 ==> !IsWhiteSpace(r[0])
    decreases |s|
  {
    if |s| > 0 && IsWhiteSpace(s[0]) then TrimStart(s[1..]) else s
  }

  /** `String.TrimEnd()`: drops the white space suffix. */
  function TrimEnd(s: string): (r: string)
    ensures |r| <= |s| && r == s[..|r|]
    ensures AllWhiteSpace(s[|r|..])
    ensures |r| > 0 ==> !IsWhiteSpace(r[|r| - 1])
    decreases |s|
  {
    if |s| > 0 && IsWhiteSpace(s[|s| - 1]) then TrimEnd(s[..|s| - 1]) else s
  }

  /** `String.Trim()`: white space removed at both ends. */
  function Trim(s: string): (r: string)
    ensures Trimmed(r) && |r| <= |s|
  {
    TrimEnd(TrimStart(s))
  }

  /** What `Trim` leaves is its input with only white space cut from
      either end. */
  lemma TrimIsCore(s: string)
    ensures exists a, b :: s == a + Trim(s) + b && AllWhiteSpace(a) && AllWhiteSpace(b)
  {
    var t := TrimStart(s);
    var a := StartCut(s);
    var b := EndCut(t);
    AppendAssoc(a, Trim(s), b);
    assert s == a + Trim(s) + b && AllWhiteSpace(a) && AllWhiteSpace(b);
  }

  lemma AppendAssoc(x: string, y: string, z: string)
    ensures x + (y + z) == x + y + z
  {
  }

  /** The white space `TrimStart` removes. */
  lemma StartCut(s: string) returns (a: string)
    ensures s == a + TrimStart(s) && AllWhiteSpace(a)
  {
    var t := TrimStart(s);
    a := s[..|s| - |t|];
    assert s == a + s[|s| - |t|..];
  }

  /** The white space `TrimEnd` removes. */
  lemma EndCut(t: string) returns (b: string)
    ensures t == TrimEnd(t) + b && AllWhiteSpace(b)
  {
    var r := TrimEnd(t);
    b := t[|r|..];
    assert t == t[..|r|] + b;
  }

  /** Trimming recovers a trimmed core from any white space padding: the
      result of `Trim` is determined by the non-blank part alone. */
  lemma {:induction false} TrimPadded(a: string, x: string, b: string)
    requires AllWhiteSpace(a) && AllWhiteSpace(b) && Trimmed(x)
    ensures Trim(a + x + b) == x
  {
    if |x| == 0 {
      assert a + x + b == (a + b) + x;
      StartOfPadded(a + b, x);
      assert TrimStart(a + x + b) == [];
    } else {
      assert a + x + b == a + (x + b);
      StartOfPadded(a, x + b);
      assert TrimStart(a + x + b) == x + b;
      EndOfPadded(x, b);
    }
  }

  lemma {:induction false} StartOfPadded(a: string, y: string)
    requires AllWhiteSpace(a)
    requires |y| > 0 ==> !IsWhiteSpace(y[0])
    ensures TrimStart(a + y) == y
    decreases |a|
  {
    if |a| > 0 {
      assert (a + y)[1..] == a[1..] + y;
      StartOfPadded(a[1..], y);
    } else {
      assert a + y == y;
    }
  }

  lemma {:induction false} EndOfPadded(x: string, b: string)
    requires AllWhiteSpace(b)
    requires |x| > 0 ==> !IsWhiteSpace(x[|x| - 1])
    ensures TrimEnd(x + b) == x
    decreases |b|
  {
    if |b| > 0 {
      var b' := b[..|b| - 1];
      assert (x + b)[..|x + b| - 1] == x + b';
      EndOfPadded(x, b');
    } else {
      assert x + b == x;
    }
  }

  /** `Trim` is idempotent. */
  lemma TrimIdempotent(s: string)
    ensures Trim(Trim(s)) == Trim(s)
  {
    var r := Trim(s);
    TrimPadded([], r, []);
    assert [] + r + [] == r;
  }

  /** `String.Join(sep, parts)`, the inverse of `Split`. */
  function Join(parts: seq<string>, sep: char): string {
    if |parts| == 0 then []
    else if |parts| == 1 then parts[0]
    else parts[0] + [sep] + Join(parts[1..], sep)
  }

  /** `String.Split(sep)`: the maximal `sep`-free pieces between separators,
      so `k` separators give `k + 1` pieces (empty ones included). */
  function Split(s: string, sep: char): (parts: seq<string>)
    ensures |parts| == Count(s, sep) + 1
    ensures forall i :: 0 <= i < |parts| ==> sep !in parts[i]
    decreases |s|
  {
    if |s| == 0 then [[]]
    else
      var rest := Split(s[1..], sep);
      if s[0] == sep then
        [[]] + rest
      else
        var parts := [[s[0]] + rest[0]] + rest[1..];
        assert parts[1..] == rest[1..];
        parts
  }

  /** Joining the pieces of a split with the separator restores the string. */
  lemma {:induction false} JoinSplit(s: string, sep: char)
    ensures Join(Split(s, sep), sep) == s
    decreases |s|
  {
    if |s| > 0 {
      JoinSplit(s[1..], sep);
      assert s == [s[0]] + s[1..];
    }
  }

  /** Splitting the join of separator-free pieces gives the pieces back. */
  lemma {:induction false} SplitJoin(parts: seq<string>, sep: char)
    requires |parts| > 0
    requires forall i :: 0 <= i < |parts| ==> sep !in parts[i]
    ensures Split(Join(parts, sep), sep) == parts
    decreases |parts|
  {
    if |parts| == 1 {
      SplitSepFree(parts[0], [], sep);
      assert parts[0] + [] == parts[0];
    } else {
      var tail := [sep] + Join(parts[1..], sep);
      SplitJoin(parts[1..], sep);
      assert Split(tail, sep) == [[]] + parts[1..] by {
        assert tail[1..] == Join(parts[1..], sep);
      }
      SplitSepFree(parts[0], tail, sep);
      assert Join(parts, sep) == parts[0] + tail;
      assert parts[0] + [] == parts[0];
      assert parts == [parts[0]] + parts[1..];
    }
  }

  /** A separator-free prefix joins the first piece of what follows it. */
  lemma {:induction false} SplitSepFree(p: string, t: string, sep: char)
    requires sep !in p
    ensures Split(p + t, sep) == [p + Split(t, sep)[0]] + Split(t, sep)[1..]
    decreases |p|
  {
    if |p| == 0 {
      assert p + t == t;
      assert p + Split(t, sep)[0] == Split(t, sep)[0];
      assert Split(t, sep) == [Split(t, sep)[0]] + Split(t, sep)[1..];
    } else {
      assert (p + t)[1..] == p[1..] + t;
      assert p[1..] + Split(t, sep)[0] == (p + Split(t, sep)[0])[1..];
      SplitSepFree(p[1..], t, sep);
      assert [p[0]] + (p[1..] + Split(t, sep)[0]) == p + Split(t, sep)[0];
    }
  }

  /** `String.Replace(c, "")`: `s` with every `c` deleted, the other
      characters kept in order. */
  function RemoveChar(s: string, c: char): (r: string)
    ensures c !in r
    ensures |r| == |s| - Count(s, c)
    ensures forall x :: x != c ==> (x in r <==> x in s)
    decreases |s|
  {
    if |s| == 0 then []
    else
      var rest := RemoveChar(s[1..], c);
      assert s == [s[0]] + s[1..];
      if s[0] == c then rest else [s[0]] + rest
  }

  /** Deleting a character distributes over concatenation, so separators
      other than `c` survive in place. */
  lemma {:induction false} RemoveCharAppend(s: string, t: string, c: char)
    ensures RemoveChar(s + t, c) == RemoveChar(s, c) + RemoveChar(t, c)
    decreases |s|
  {
    if |s| == 0 {
      assert s + t == t;
    } else {
      assert (s + t)[1..] == s[1..] + t;
      RemoveCharAppend(s[1..], t, c);
    }
  }

  /** A string without `c` is left as it is. */
  lemma {:induction false} RemoveCharAbsent(s: string, c: char)
    requires c !in s
    ensures RemoveChar(s, c) == s
    decreases |s|
  {
    if |s| > 0 {
      assert c !in s[1..];
      RemoveCharAbsent(s[1..], c);
      assert s == [s[0]] + s[1..];
    }
  }
}
