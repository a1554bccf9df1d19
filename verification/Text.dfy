/** Strings as the configuration package sees them: Go's byte strings restricted to ASCII,
    with the few library operations the parser uses (`strings.TrimSpace`, `strings.ToLower`,
    `strings.IndexAny`, `strings.Index`) and splitting at newlines. */
module Text {

  predicate IsSpace(c: char) {
    c == ' ' || c == '\t' || c == '\n' || c == '\r' || c == '\U{0B}' || c == '\U{0C}'
  }

  /** The first visible character at or after `i`. */
  function SkipSpaces(s: string, i: nat): (j: nat)
    requires i <= |s|
    ensures i <= j <= |s|
    ensures j < |s| ==> !IsSpace(s[j])
    ensures forall k :: i <= k < j ==> IsSpace(s[k])
    decreases |s| - i
  {
    if i < |s| && IsSpace(s[i]) then SkipSpaces(s, i + 1) else i
  }

  /** The end of the last visible character before `j`. */
  function DropSpaces(s: string, j: nat): (i: nat)
    requires j <= |s|
    ensures i <= j
    ensures i > 0 ==> !IsSpace(s[i - 1])
    ensures forall k :: i <= k < j ==> IsSpace(s[k])
  {
    if j > 0 && IsSpace(s[j - 1]) then DropSpaces(s, j - 1) else j
  }

  /** `strings.TrimSpace` */
  function Trim(s: string): (r: string)
    ensures Trimmed(r)
  {
    var i, j := SkipSpaces(s, 0), DropSpaces(s, |s|);
    if i < j then s[i..j] else ""
  }

  predicate Trimmed(s: string) {
    s != "" ==> !IsSpace(s[0]) && !IsSpace(s[|s| - 1])
  }

  lemma TrimTrimmed(s: string)
    requires Trimmed(s)
    ensures Trim(s) == s
  {
  }

  /** Trimming text that starts with a visible character only shortens it at the end. */
  lemma TrimPrefix(s: string)
    requires s != "" && !IsSpace(s[0])
    ensures Trim(s) <= s && Trim(s) != ""
  {
    var i, j := SkipSpaces(s, 0), DropSpaces(s, |s|);
    assert i == 0 && j > 0;
    assert Trim(s) == s[0..j];
  }

  lemma TrimSlice(s: string)
    ensures exists i, j :: 0 <= i <= j <= |s| && Trim(s) == s[i..j]
  {
    var i, j := SkipSpaces(s, 0), DropSpaces(s, |s|);
    if i < j {
      assert Trim(s) == s[i..j];
    } else {
      assert Trim(s) == s[0..0];
    }
  }

  lemma {:induction false} DropSpacesOfPrefix(s: string, t: string, j: nat)
    requires j <= |s|
    ensures DropSpaces(s + t, j) == DropSpaces(s, j)
  {
    if j > 0 && IsSpace(s[j - 1]) {
      DropSpacesOfPrefix(s, t, j - 1);
    }
  }

  lemma {:induction false} SkipSpacesUnique(s: string, i: nat, j: nat)
    requires i <= j <= |s| && (j < |s| ==> !IsSpace(s[j])) && forall k :: i <= k < j ==> IsSpace(s[k])
    ensures SkipSpaces(s, i) == j
  {
  }

  /** Trimming is determined by what it leaves: white space around a part that neither starts nor
      ends with any. */
  lemma TrimExactly(s: string, i: nat, j: nat)
    requires i <= j <= |s| && Trimmed(s[i..j])
    requires forall k :: 0 <= k < i || j <= k < |s| ==> IsSpace(s[k])
    ensures Trim(s) == s[i..j]
  {
    var a, b := SkipSpaces(s, 0), DropSpaces(s, |s|);
    if i < j {
      assert s[i..j][0] == s[i] && s[i..j][j - i - 1] == s[j - 1];
      assert a == i && b == j;
    }
  }

  /** The newline that ends a line is trimmed with the rest of its white space. */
  lemma TrimLineEnd(l: string)
    ensures Trim(l + "\n") == Trim(l)
  {
    var s := l + "\n";
    var i, j := SkipSpaces(l, 0), DropSpaces(l, |l|);
    assert s[|l|] == '\n';
    DropSpacesOfPrefix(l, "\n", |l|);
    assert DropSpaces(s, |s|) == j;
    if i < |l| {
      SkipSpacesUnique(s, 0, i);
      assert i < j ==> s[i..j] == l[i..j];
    }
  }

  function LowerChar(c: char): char {
    if 'A' <= c <= 'Z' then (c as int + 32) as char else c
  }

  /** `strings.ToLower` */
  function Lower(s: string): (r: string)
    ensures |r| == |s|
    ensures forall i :: 0 <= i < |s| ==> r[i] == LowerChar(s[i])
  {
    seq(|s|, i requires 0 <= i < |s| => LowerChar(s[i]))
  }

  predicate IsLower(s: string) {
    Lower(s) == s
  }

  predicate NoCapital(s: string) {
    forall i :: 0 <= i < |s| ==> !('A' <= s[i] <= 'Z')
  }

  /** Lower-casing leads to text without capitals, and leaves just such text alone. */
  lemma LowerExactly(s: string)
    ensures NoCapital(Lower(s)) && (Lower(s) == s <==> NoCapital(s))
  {
    if Lower(s) == s {
      forall i | 0 <= i < |s|
        ensures !('A' <= s[i] <= 'Z')
      {
        assert Lower(s)[i] == LowerChar(s[i]);
      }
    }
  }

  const CAPITALS := "ABCDEFGHIJKLMNOPQRSTUVWXYZ"
  const SMALL := "abcdefghijklmnopqrstuvwxyz"

  /** Each capital becomes the small letter at the same place of the alphabet, and nothing else
      changes. */
  lemma LowerLetters(s: string, i: nat)
    requires i < |s|
    ensures forall k :: 0 <= k < 26 && s[i] == CAPITALS[k] ==> Lower(s)[i] == SMALL[k]
    ensures s[i] !in CAPITALS ==> Lower(s)[i] == s[i]
  {
    if 'A' <= s[i] <= 'Z' {
      var k := s[i] as int - 'A' as int;
      assert CAPITALS[k] == s[i];
    }
  }

  lemma LowerIdempotent(s: string)
    ensures IsLower(Lower(s))
  {
    LowerExactly(s);
    LowerExactly(Lower(s));
  }

  lemma LowerKeepsTrimmed(s: string)
    requires Trimmed(s)
    ensures Trimmed(Lower(s))
  {
  }

  predicate NoNewline(s: string) {
    '\n' !in s
  }

  lemma LowerKeepsNoNewline(s: string)
    requires NoNewline(s)
    ensures NoNewline(Lower(s))
  {
  }

  lemma TrimKeepsNoNewline(s: string)
    requires NoNewline(s)
    ensures NoNewline(Trim(s))
  {
    TrimSlice(s);
  }

  predicate IsSeparator(c: char) {
    c == '=' || c == ':'
  }

  function SeparatorFrom(l: string, i: nat): (j: nat)
    requires i <= |l|
    ensures i <= j <= |l|
    ensures j < |l| ==> IsSeparator(l[j])
    ensures forall k :: i <= k < j ==> !IsSeparator(l[k])
    decreases |l| - i
  {
    if i < |l| && !IsSeparator(l[i]) then SeparatorFrom(l, i + 1) else i
  }

  /** `strings.IndexAny(l, "=:")` */
  function FirstSeparator(l: string): (i: int)
    ensures -1 <= i < |l|
    ensures i >= 0 ==> IsSeparator(l[i])
    ensures forall j :: 0 <= j < (if i < 0 then |l| else i) ==> !IsSeparator(l[j])
  {
    var i := SeparatorFrom(l, 0);
    if i < |l| then i else -1
  }

  predicate OccursAt(s: string, sub: string, i: nat) {
    i + |sub| <= |s| && s[i..i + |sub|] == sub
  }

  function IndexFrom(s: string, sub: string, i: nat): (j: int)
    requires i <= |s|
    ensures j == -1 || (i <= j <= |s| && OccursAt(s, sub, j))
    ensures forall k :: i <= k < (if j < 0 then |s| else j) ==> !OccursAt(s, sub, k)
    decreases |s| - i
  {
    if OccursAt(s, sub, i) then i
    else if i == |s| then -1
    else IndexFrom(s, sub, i + 1)
  }

  /** `strings.Index` */
  function Index(s: string, sub: string): (i: int)
    ensures i == -1 || (0 <= i <= |s| && OccursAt(s, sub, i))
    ensures forall k :: 0 <= k < (if i < 0 then |s| else i) ==> !OccursAt(s, sub, k)
  {
    IndexFrom(s, sub, 0)
  }

  lemma IndexOfNewline(s: string)
    ensures var i := Index(s, "\n");
            && (i == -1 ==> NoNewline(s))
            && (i != -1 ==> i < |s| && s[i] == '\n' && NoNewline(s[..i]))
  {
    var i := Index(s, "\n");
    forall k | 0 <= k < (if i == -1 then |s| else i)
      ensures s[k] != '\n'
    {
      assert !OccursAt(s, "\n", k);
      assert s[k..k + 1] == [s[k]];
    }
    if i != -1 {
      assert s[i..i + 1][0] == s[i];
    }
  }

  function NewlineFrom(s: string, i: nat): (j: nat)
    requires i <= |s|
    ensures i <= j <= |s|
    ensures j < |s| ==> s[j] == '\n'
    ensures forall k :: i <= k < j ==> s[k] != '\n'
    decreases |s| - i
  {
    if i < |s| && s[i] != '\n' then NewlineFrom(s, i + 1) else i
  }

  /** The text up to its first newline. */
  function FirstLine(s: string): (l: string)
    ensures l <= s && NoNewline(l)
    ensures |l| < |s| ==> s[|l|] == '\n'
  {
    s[..NewlineFrom(s, 0)]
  }

  /** The pieces between newlines; there is always at least one. */
  function Lines(s: string): (ls: seq<string>)
    ensures |ls| >= 1
    ensures forall l :: l in ls ==> NoNewline(l)
    decreases |s|
  {
    var l := FirstLine(s);
    if |l| == |s| then [s] else [l] + Lines(s[|l| + 1..])
  }

  lemma {:induction false} LinesAfterNewline(l: string, rest: string)
    requires NoNewline(l)
    ensures Lines(l + "\n" + rest) == [l] + Lines(rest)
  {
    var s := l + "\n" + rest;
    FirstLineUnique(l, s);
    assert s[|l| + 1..] == rest;
  }

  lemma {:induction false} LinesAt(s: string, i: nat)
    requires i < |s| && s[i] == '\n' && NoNewline(s[..i])
    ensures Lines(s) == [s[..i]] + Lines(s[i + 1..])
  {
    LinesAfterNewline(s[..i], s[i + 1..]);
    assert s == s[..i] + "\n" + s[i + 1..];
  }

  lemma FirstLineUnique(l: string, s: string)
    requires NoNewline(l) && l < s && s[|l|] == '\n'
    ensures FirstLine(s) == l
  {
    var f := FirstLine(s);
    if |f| < |l| {
      assert false;
    } else if |l| < |f| {
      assert false;
    }
  }

  lemma {:induction false} LinesOfLine(l: string)
    requires NoNewline(l)
    ensures Lines(l) == [l]
  {
    var f := FirstLine(l);
    if |f| < |l| {
      assert false;
    }
  }

  lemma {:induction false} LinesConcat(a: string, b: string)
    ensures Lines(a + "\n" + b) == Lines(a) + Lines(b)
    decreases |a|
  {
    var l := FirstLine(a);
    if |l| == |a| {
      assert a == l;
      LinesAfterNewline(a, b);
      LinesOfLine(a);
    } else {
      var rest := a[|l| + 1..];
      var tail := rest + "\n" + b;
      calc {
        Lines(a + "\n" + b);
        { assert a == l + "\n" + rest; assert a + "\n" + b == l + "\n" + tail; }
        Lines(l + "\n" + tail);
        { LinesAfterNewline(l, tail); }
        [l] + Lines(tail);
        { LinesConcat(rest, b); }
        [l] + (Lines(rest) + Lines(b));
        [l] + Lines(rest) + Lines(b);
        { LinesAfterNewline(l, rest); assert a == l + "\n" + rest; }
        Lines(a) + Lines(b);
      }
    }
  }

  /** Text in front of the first newline only lengthens the first line. */
  lemma {:induction false} LinesPrefixed(p: string, s: string)
    requires NoNewline(p)
    ensures Lines(p + s) == [p + Lines(s)[0]] + Lines(s)[1..]
  {
    var l := FirstLine(s);
    if |l| == |s| {
      assert s == l;
      LinesOfLine(s);
      LinesOfLine(p + s);
    } else {
      var rest := s[|l| + 1..];
      assert s == l + "\n" + rest;
      assert p + s == (p + l) + "\n" + rest;
      LinesAfterNewline(p + l, rest);
      LinesAfterNewline(l, rest);
    }
  }

  /** All the parts, one after another. */
  function Concat(parts: seq<string>): string {
    if parts == [] then "" else Concat(parts[..|parts| - 1]) + parts[|parts| - 1]
  }

  lemma {:induction false} ConcatMore(parts: seq<string>, part: string)
    ensures Concat(parts + [part]) == Concat(parts) + part
  {
    assert (parts + [part])[..|parts|] == parts;
  }

  /** Each line followed by a newline. */
  function Terminate(ls: seq<string>): string {
    if ls == [] then "" else Terminate(ls[..|ls| - 1]) + ls[|ls| - 1] + "\n"
  }

  lemma {:induction false} TerminateConcat(a: seq<string>, b: seq<string>)
    ensures Terminate(a + b) == Terminate(a) + Terminate(b)
  {
    if b == [] {
      assert a + b == a;
    } else {
      var n := |b| - 1;
      assert (a + b)[..|a| + n] == a + b[..n];
      TerminateConcat(a, b[..n]);
    }
  }

  lemma {:induction false} TerminateLines(s: string)
    ensures Terminate(Lines(s)) == s + "\n"
    decreases |s|
  {
    var l := FirstLine(s);
    if |l| == |s| {
      assert Terminate([s]) == s + "\n";
    } else {
      var rest := s[|l| + 1..];
      TerminateConcat([l], Lines(rest));
      assert Terminate([l]) == l + "\n";
      TerminateLines(rest);
      assert s == l + "\n" + rest;
    }
  }

  lemma {:induction false} TerminateLast(ls: seq<string>)
    requires ls != []
    ensures Terminate(ls) == Terminate(ls[..|ls| - 1]) + ls[|ls| - 1] + "\n"
  {
  }

  lemma {:induction false} LinesLastExtended(ls: seq<string>, l: string)
    requires (forall k :: k in ls ==> NoNewline(k)) && NoNewline(l)
    ensures Lines(Terminate(ls) + l) == ls + [l]
  {
    if ls == [] {
      LinesOfLine(l);
      assert Terminate(ls) + l == l;
    } else {
      var n := |ls| - 1;
      LinesLastExtended(ls[..n], ls[n]);
      var before := Terminate(ls[..n]) + ls[n];
      TerminateLast(ls);
      LinesConcat(before, l);
      LinesOfLine(l);
    }
  }

  lemma {:induction false} LinesOfTerminated(ls: seq<string>)
    requires forall l :: l in ls ==> NoNewline(l)
    ensures Lines(Terminate(ls)) == ls + [""]
  {
    LinesLastExtended(ls, "");
    assert Terminate(ls) + "" == Terminate(ls);
  }
}
