/** Reading a configuration: the line machine of conf/read.go as a fold over lines, and what
    every configuration it produces looks like. */
module ConfigRead {
  import opened Text
  import opened Wrappers
  import opened ConfigData

  // ---------- Comments at the end of a line ----------

  const MARKERS: seq<string> := [" ;", "\t;", " #", "\t#"]

  /** A comment starts at `i`: a space or tab followed by `;` or `#`. */
  predicate CommentAt(l: string, i: int) {
    0 <= i && i + 1 < |l| && (l[i] == ' ' || l[i] == '\t') && (l[i + 1] == ';' || l[i + 1] == '#')
  }

  predicate NoComment(l: string) {
    forall i :: 0 <= i < |l| ==> !CommentAt(l, i)
  }

  function CommentFrom(l: string, i: nat): (k: nat)
    requires i <= |l|
    ensures i <= k <= |l|
    ensures k < |l| ==> CommentAt(l, k)
    ensures forall j :: i <= j < k ==> !CommentAt(l, j)
    decreases |l| - i
  {
    if i < |l| && !CommentAt(l, i) then CommentFrom(l, i + 1) else i
  }

  function CommentStart(l: string): (k: nat)
    ensures k <= |l|
    ensures k < |l| ==> CommentAt(l, k)
    ensures forall i :: 0 <= i < k ==> !CommentAt(l, i)
  {
    CommentFrom(l, 0)
  }

  /** The line without its trailing comment: everything before the earliest marker. */
  function StripComments(l: string): string {
    l[..CommentStart(l)]
  }

  /** The line after trying one marker. */
  function CutAt(l: string, m: string): string {
    var i := Index(l, m);
    if i != -1 then l[..i] else l
  }

  /** Cutting at one marker after another, as the source does. */
  function CutAll(l: string, markers: seq<string>): string
    decreases |markers|
  {
    if markers == [] then l
    else
      CutAll(CutAt(l, markers[0]), markers[1..])
  }

  predicate MarkerIn(l: string, i: nat, markers: seq<string>) {
    exists m :: m in markers && OccursAt(l, m, i)
  }

  lemma MarkersAreComments(l: string, i: nat)
    ensures MarkerIn(l, i, MARKERS) <==> CommentAt(l, i)
  {
    if CommentAt(l, i) {
      assert l[i..i + 2] == [l[i], l[i + 1]];
      assert MARKERS[0] in MARKERS && MARKERS[1] in MARKERS && MARKERS[2] in MARKERS && MARKERS[3] in MARKERS;
      assert OccursAt(l, [l[i], l[i + 1]], i);
    }
  }

  /** Two markers never overlap, so cutting at one hides no earlier occurrence of another. */
  lemma CutKeepsEarlier(l: string, m: string, n: string, j: nat)
    requires m in MARKERS && n in MARKERS
    ensures OccursAt(CutAt(l, m), n, j) <==> OccursAt(l, n, j) && j < |CutAt(l, m)|
  {
    var i := Index(l, m);
    if OccursAt(l, n, j) {
      assert l[j..j + 2][1] == n[1];
      if i != -1 && j < i {
        assert l[i..i + 2][0] == m[0];
        assert j + 1 != i;
      }
    }
    if j + 2 <= |CutAt(l, m)| {
      assert CutAt(l, m)[j..j + 2] == l[j..j + 2];
    }
  }

  /** `k` is where the earliest of the markers occurs, or the end of the line. */
  ghost predicate Earliest(l: string, markers: seq<string>, k: nat) {
    && k <= |l|
    && (k < |l| ==> MarkerIn(l, k, markers))
    && forall i: nat :: i < k ==> !MarkerIn(l, i, markers)
  }

  lemma CutReaches(l: string, markers: seq<string>, k: nat)
    requires markers != [] && Earliest(l, markers, k)
    ensures k <= |CutAt(l, markers[0])|
  {
    var m := markers[0];
    if Index(l, m) != -1 {
      assert m in markers;
      assert MarkerIn(l, Index(l, m), markers);
    }
  }

  lemma CutHides(l: string, markers: seq<string>, k: nat, j: nat)
    requires markers != [] && (forall m :: m in markers ==> m in MARKERS) && Earliest(l, markers, k) && j < k
    ensures !MarkerIn(CutAt(l, markers[0]), j, markers[1..])
  {
    if n :| n in markers[1..] && OccursAt(CutAt(l, markers[0]), n, j) {
      CutKeepsEarlier(l, markers[0], n, j);
      assert MarkerIn(l, j, markers);
    }
  }

  lemma CutLeaves(l: string, markers: seq<string>, k: nat)
    requires markers != [] && (forall m :: m in markers ==> m in MARKERS) && Earliest(l, markers, k)
    requires k < |CutAt(l, markers[0])|
    ensures MarkerIn(CutAt(l, markers[0]), k, markers[1..])
  {
    var n :| n in markers && OccursAt(l, n, k);
    CutKeepsEarlier(l, markers[0], n, k);
    assert n != markers[0];
    assert n in markers[1..];
  }

  /** Cutting at comment markers one by one, in any order, cuts at the earliest of them. */
  lemma {:induction false} CutAllIsEarliest(l: string, markers: seq<string>, k: nat)
    requires forall m :: m in markers ==> m in MARKERS
    requires Earliest(l, markers, k)
    ensures CutAll(l, markers) == l[..k]
    decreases |markers|
  {
    if markers == [] {
      assert l[..k] == l;
    } else {
      var l' := CutAt(l, markers[0]);
      CutReaches(l, markers, k);
      forall j: nat | j < k
        ensures !MarkerIn(l', j, markers[1..])
      {
        CutHides(l, markers, k, j);
      }
      if k < |l'| {
        CutLeaves(l, markers, k);
      }
      CutAllIsEarliest(l', markers[1..], k);
      assert l'[..k] == l[..k];
    }
  }

  /** `stripComments` cuts at the earliest marker whatever order the markers are tried in. */
  lemma {:induction false} StripInAnyOrder(l: string, order: seq<string>)
    requires forall m :: m in order <==> m in MARKERS
    ensures CutAll(l, order) == StripComments(l)
  {
    var k := CommentStart(l);
    forall i: nat
      ensures MarkerIn(l, i, order) <==> CommentAt(l, i)
    {
      MarkersAreComments(l, i);
    }
    CutAllIsEarliest(l, order, k);
  }

  /** A stripped line holds no marker, and neither does any prefix of it. */
  lemma StrippedHasNoComment(l: string, p: string)
    requires p <= StripComments(l)
    ensures NoComment(p)
  {
    forall i | 0 <= i < |p|
      ensures !CommentAt(p, i)
    {
      if CommentAt(p, i) {
        assert CommentAt(l, i);
      }
    }
  }

  lemma StripNoComment(l: string)
    requires NoComment(l)
    ensures StripComments(l) == l
  {
    assert CommentStart(l) < |l| ==> CommentAt(l, CommentStart(l));
  }

  /** A cleaned value - stripped, then trimmed - has no comment left to strip. */
  function Clean(l: string): string {
    Trim(StripComments(l))
  }

  lemma SliceHasNoComment(t: string, i: nat, j: nat)
    requires i <= j <= |t| && NoComment(t)
    ensures NoComment(t[i..j])
  {
    forall k | 0 <= k < j - i
      ensures !CommentAt(t[i..j], k)
    {
      assert !CommentAt(t, i + k);
    }
  }

  lemma CleanIsClean(l: string)
    ensures NoComment(Clean(l)) && Trimmed(Clean(l))
    ensures StripComments(Clean(l)) == Clean(l)
    ensures Clean(Clean(l)) == Clean(l)
  {
    var t := StripComments(l);
    StrippedHasNoComment(l, t);
    TrimSlice(t);
    var i, j :| 0 <= i <= j <= |t| && Trim(t) == t[i..j];
    SliceHasNoComment(t, i, j);
    StripNoComment(Clean(l));
    TrimTrimmed(Clean(l));
  }

  // ---------- One line ----------

  /** A whole-line comment. The third form is meant for `rem`, but any line whose first three
      characters read `rem` counts. */
  predicate IsComment(l: string) {
    || (l != "" && (l[0] == '#' || l[0] == ';'))
    || (|l| >= 3 && LowerChar(l[0]) == 'r' && LowerChar(l[1]) == 'e' && LowerChar(l[2]) == 'm')
  }

  /** A section header. */
  predicate IsHeader(l: string) {
    l != "" && l[0] == '[' && l[|l| - 1] == ']'
  }

  datatype Reader = Reader(data: Data, section: string, option: string)

  datatype ReadError = BlankSection(line: string) | CouldNotParse(line: string)

  datatype Scan = Scan(reader: Reader, error: Option<ReadError>)

  const START := Reader(EMPTY, DEFAULT_SECTION, "")

  function RawValue(d: Data, section: string, option: string): string {
    var s, o := LookupSection(section), Lower(option);
    if s in d && o in d[s] then d[s][o] else ""
  }

  /** The effect of one line, already trimmed. */
  function Step(r: Reader, l: string): Scan {
    if l == "" || IsComment(l) then Scan(r, None)
    else if IsHeader(l) then
      var section := Trim(l[1..|l| - 1]);
      Scan(Reader(AddSection(r.data, section), section, ""), None)
    else if r.section == "" then Scan(r, Some(BlankSection(l)))
    else
      var i := FirstSeparator(l);
      if i > 0 then
        var option := Trim(l[..i]);
        Scan(Reader(AddOption(r.data, r.section, option, Clean(l[i + 1..])), r.section, option), None)
      else if r.option != "" then
        var value := RawValue(r.data, r.section, r.option) + "\n" + Clean(l);
        Scan(r.(data := AddOption(r.data, r.section, r.option, value)), None)
      else Scan(r, Some(CouldNotParse(l)))
  }

  /** All lines in turn, stopping at the first that is refused. */
  function ScanLines(r: Reader, ls: seq<string>): Scan
    decreases |ls|
  {
    if ls == [] then Scan(r, None)
    else
      var first := Step(r, Trim(ls[0]));
      if first.error.Some? then first else ScanLines(first.reader, ls[1..])
  }

  lemma {:induction false} ScanBlank(r: Reader)
    ensures ScanLines(r, [""]) == Scan(r, None)
  {
    TrimTrimmed("");
    assert Step(r, "") == Scan(r, None);
  }

  lemma {:induction false} ScanConcat(r: Reader, a: seq<string>, b: seq<string>)
    ensures ScanLines(r, a + b) ==
            (var s := ScanLines(r, a); if s.error.Some? then s else ScanLines(s.reader, b))
    decreases |a|
  {
    if a == [] {
      assert a + b == b;
    } else {
      assert (a + b)[1..] == a[1..] + b;
      ScanConcat(Step(r, Trim(a[0])).reader, a[1..], b);
    }
  }

  function ScanText(r: Reader, text: string): Scan {
    ScanLines(r, Lines(text))
  }

  /** A missing final newline makes no difference. */
  lemma FinalNewline(r: Reader, text: string)
    ensures ScanText(r, text + "\n") == ScanText(r, text)
  {
    LinesConcat(text, "");
    LinesOfLine("");
    assert text + "\n" + "" == text + "\n";
    ScanConcat(r, Lines(text), [""]);
    var s := ScanText(r, text);
    if s.error.None? {
      ScanBlank(s.reader);
    }
  }

  /** The error is reported exactly at the first offending line: everything before it was
      accepted, and it is the line itself that the reader refuses. */
  lemma {:induction false} ErrorIsFirst(r: Reader, ls: seq<string>)
    ensures ScanLines(r, ls).error.Some? <==>
            exists n :: 0 <= n < |ls| && ScanLines(r, ls[..n]).error.None? &&
                        Step(ScanLines(r, ls[..n]).reader, Trim(ls[n])).error.Some?
    ensures forall n :: 0 <= n < |ls| && ScanLines(r, ls[..n]).error.None? &&
                        Step(ScanLines(r, ls[..n]).reader, Trim(ls[n])).error.Some? ==>
                        ScanLines(r, ls) == Step(ScanLines(r, ls[..n]).reader, Trim(ls[n]))
  {
    forall n | 0 <= n < |ls| && ScanLines(r, ls[..n]).error.None? &&
               Step(ScanLines(r, ls[..n]).reader, Trim(ls[n])).error.Some?
      ensures ScanLines(r, ls) == Step(ScanLines(r, ls[..n]).reader, Trim(ls[n]))
    {
      assert ls == ls[..n] + ls[n..];
      ScanConcat(r, ls[..n], ls[n..]);
    }
    if ScanLines(r, ls).error.Some? {
      var n := OffendingLine(r, ls);
    }
  }

  lemma {:induction false} OffendingLine(r: Reader, ls: seq<string>) returns (n: nat)
    requires ScanLines(r, ls).error.Some?
    ensures n < |ls| && ScanLines(r, ls[..n]).error.None?
    ensures Step(ScanLines(r, ls[..n]).reader, Trim(ls[n])).error.Some?
    decreases |ls|
  {
    var first := Step(r, Trim(ls[0]));
    if first.error.Some? {
      n := 0;
    } else {
      var m := OffendingLine(first.reader, ls[1..]);
      n := m + 1;
      assert ls[..n][1..] == ls[1..][..m] && ls[..n][0] == ls[0];
    }
  }
}
