/** What each kind of line does when it is read, spelled out character by character and for whole
    texts (conf/read.go). */
module ConfigLines {
  import opened Text
  import opened Wrappers
  import opened ConfigData
  import opened ConfigRead

  predicate White(c: char) {
    c == ' ' || c == '\t' || c == '\n' || c == '\r' || c == '\U{0B}' || c == '\U{0C}'
  }

  predicate Blank(s: string) {
    forall i :: 0 <= i < |s| ==> White(s[i])
  }

  /** Starts and ends with a visible character. */
  predicate Visible(s: string) {
    s != "" && !White(s[0]) && !White(s[|s| - 1])
  }

  /** `l` stands at `i`, with nothing but white space around it. */
  predicate HoldsAt(s: string, l: string, i: nat) {
    && (l == "" || Visible(l))
    && i + |l| <= |s| && s[i..i + |l|] == l
    && forall k :: 0 <= k < |s| && !(i <= k < i + |l|) ==> White(s[k])
  }

  predicate Holds(s: string, l: string) {
    exists i :: 0 <= i <= |s| && HoldsAt(s, l, i)
  }

  /** The three forms of a comment that takes a whole line. */
  predicate Commented(l: string) {
    || (l != "" && (l[0] == '#' || l[0] == ';'))
    || (|l| >= 3 && (l[0] == 'r' || l[0] == 'R') && (l[1] == 'e' || l[1] == 'E') && (l[2] == 'm' || l[2] == 'M'))
  }

  predicate CommentedFrom(s: string, i: nat) {
    i < |s| && Blank(s[..i]) && Commented(s[i..])
  }

  predicate Ignored(s: string) {
    Blank(s) || exists i :: 0 <= i < |s| && CommentedFrom(s, i)
  }

  predicate Bracketed(l: string) {
    |l| >= 2 && l[0] == '[' && l[|l| - 1] == ']'
  }

  /** The first `=` or `:` is at `i`. */
  predicate Splits(l: string, i: int) {
    && 0 <= i < |l| && (l[i] == '=' || l[i] == ':')
    && forall j :: 0 <= j < i ==> l[j] != '=' && l[j] != ':'
  }

  /** Entries have a visible character in front of the first separator. */
  predicate HasEntry(l: string) {
    exists i :: 0 < i < |l| && Splits(l, i)
  }

  /** A space or tab with a `;` or `#` right after it. */
  predicate MarkAt(l: string, i: int) {
    0 <= i && i + 1 < |l| && (l[i] == ' ' || l[i] == '\t') && (l[i + 1] == ';' || l[i + 1] == '#')
  }

  /** `l` is a value with white space around it, and possibly a comment from `k` on. */
  predicate HasValueTo(l: string, value: string, k: nat) {
    && k <= |l| && Holds(l[..k], value)
    && (k < |l| ==> MarkAt(l, k))
    && forall i :: 0 <= i < k ==> !MarkAt(l, i)
  }

  predicate HasValue(l: string, value: string) {
    exists k :: 0 <= k <= |l| && HasValueTo(l, value, k)
  }

  /** Neither a comment nor a header. */
  predicate Plain(l: string) {
    Visible(l) && !Commented(l) && !Bracketed(l)
  }

  // ---------- Parts of a line ----------

  lemma TrimHolds(s: string, l: string)
    requires Holds(s, l)
    ensures Trim(s) == l
  {
    var i :| 0 <= i <= |s| && HoldsAt(s, l, i);
    TrimExactly(s, i, i + |l|);
  }

  lemma Held(s: string) returns (l: string)
    ensures Holds(s, l) && (l == "" <==> Blank(s))
  {
    var i, j := SkipSpaces(s, 0), DropSpaces(s, |s|);
    if i < j {
      l := s[i..j];
      assert l[0] == s[i] && l[|l| - 1] == s[j - 1];
      assert HoldsAt(s, l, i);
    } else {
      l := "";
      assert HoldsAt(s, "", 0);
    }
  }

  lemma CommentedHeld(s: string, l: string)
    requires Holds(s, l) && l != ""
    ensures Ignored(s) <==> Commented(l)
  {
    var i :| 0 <= i <= |s| && HoldsAt(s, l, i);
    assert l[0] == s[i] && s[i..][..|l|] == l;
    if k :| 0 <= k < |s| && CommentedFrom(s, k) {
      CommentStarts(s, k, i);
      CommentedPart(s[i..], l);
    }
    if Commented(l) {
      assert CommentedFrom(s, i);
    }
  }

  lemma CommentStarts(s: string, k: nat, i: nat)
    requires CommentedFrom(s, k) && i < |s| && !White(s[i]) && forall j :: 0 <= j < i ==> White(s[j])
    ensures k == i
  {
    assert s[k..][0] == s[k] && !White(s[k]);
    forall j | 0 <= j < k
      ensures White(s[j])
    {
      assert s[j] == s[..k][j];
    }
  }

  /** Trailing white space is no part of the characters that make a comment. */
  lemma CommentedPart(s: string, l: string)
    requires Commented(s) && l != "" && l <= s && forall k :: |l| <= k < |s| ==> White(s[k])
    ensures Commented(l)
  {
  }

  lemma ValueIsClean(l: string, value: string)
    requires HasValue(l, value)
    ensures Clean(l) == value
  {
    var k :| 0 <= k <= |l| && HasValueTo(l, value, k);
    var c := CommentStart(l);
    assert forall i :: 0 <= i < k && CommentAt(l, i) ==> MarkAt(l, i);
    if k < c {
      assert MarkAt(l, k) ==> CommentAt(l, k);
      assert false;
    }
    TrimHolds(l[..k], value);
  }

  /** Whatever the line, there is a value in it. */
  lemma SomeValue(l: string) returns (value: string)
    ensures HasValue(l, value)
  {
    var k := CommentStart(l);
    value := Held(l[..k]);
    forall i | 0 <= i < k
      ensures !MarkAt(l, i)
    {
      assert !CommentAt(l, i);
    }
    assert HasValueTo(l, value, k);
  }

  lemma SplitsExactly(l: string, i: int)
    ensures Splits(l, i) <==> i >= 0 && FirstSeparator(l) == i
  {
  }

  lemma PlainExactly(l: string)
    requires l == "" || Visible(l)
    ensures Plain(l) <==> l != "" && !IsComment(l) && !IsHeader(l)
  {
  }

  // ---------- Texts of several lines ----------

  /** Reading is done line by line: what follows a newline is read in the state left before it,
      unless an error was found. */
  lemma ReadInTurn(r: Reader, before: string, after: string)
    ensures ScanText(r, before + "\n" + after) ==
            var first := ScanText(r, before); if first.error.Some? then first else ScanText(first.reader, after)
  {
    LinesConcat(before, after);
    ScanConcat(r, Lines(before), Lines(after));
  }

  lemma {:induction false} OneLine(r: Reader, s: string, l: string)
    requires NoNewline(s) && Holds(s, l)
    ensures ScanText(r, s) == Step(r, l)
  {
    TrimHolds(s, l);
    LinesOfLine(s);
    var first := Step(r, Trim(s));
    assert [s][1..] == [];
    assert ScanLines(first.reader, []) == Scan(first.reader, None);
    if first.error.None? {
      assert first == Scan(first.reader, None);
    }
  }

  // ---------- Lines that are skipped ----------

  lemma IgnoredLine(r: Reader, s: string)
    requires NoNewline(s) && Ignored(s)
    ensures ScanText(r, s) == Scan(r, None)
  {
    var l := Held(s);
    OneLine(r, s, l);
    if l != "" {
      CommentedHeld(s, l);
    }
  }

  /** A blank line or a comment can be taken out of any text. */
  lemma IgnoredAnywhere(r: Reader, before: string, s: string, after: string)
    requires NoNewline(s) && Ignored(s)
    ensures ScanText(r, s + "\n" + after) == ScanText(r, after)
    ensures ScanText(r, before + "\n" + s) == ScanText(r, before)
    ensures ScanText(r, before + "\n" + (s + "\n" + after)) == ScanText(r, before + "\n" + after)
  {
    IgnoredFirst(r, s, after);
    ReadInTurn(r, before, s);
    var middle := ScanText(r, before).reader;
    IgnoredLine(middle, s);
    ReadInTurn(r, before, s + "\n" + after);
    ReadInTurn(r, before, after);
    IgnoredFirst(middle, s, after);
  }

  lemma IgnoredFirst(r: Reader, s: string, after: string)
    requires NoNewline(s) && Ignored(s)
    ensures ScanText(r, s + "\n" + after) == ScanText(r, after)
  {
    ReadInTurn(r, s, after);
    IgnoredLine(r, s);
  }

  /** A line makes no difference, whatever has been read before it, exactly when it is blank or its
      first visible characters make it a comment. */
  lemma IgnoredExactly(s: string)
    requires NoNewline(s)
    ensures (forall r :: ScanText(r, s) == Scan(r, None)) <==> Ignored(s)
  {
    if Ignored(s) {
      forall r
        ensures ScanText(r, s) == Scan(r, None)
      {
        IgnoredLine(r, s);
      }
    } else {
      var r := Noticing(s);
      assert ScanText(r, s) != Scan(r, None);
    }
  }

  lemma Noticing(s: string) returns (r: Reader)
    requires NoNewline(s) && !Ignored(s)
    ensures ScanText(r, s) != Scan(r, None)
  {
    var l := Held(s);
    CommentedHeld(s, l);
    r := Reader(map[], "", "pending");
    OneLine(r, s, l);
    NoticedLine(r, l);
  }

  lemma NoticedLine(r: Reader, l: string)
    requires l != "" && !Commented(l) && r.section == "" && r.option != ""
    ensures Step(r, l) != Scan(r, None)
  {
    assert !IsComment(l);
  }

  // ---------- Lines that are read ----------

  /** `[name]` makes the section current, adding it if need be, and ends any entry. */
  lemma HeaderIsRead(r: Reader, s: string, l: string, name: string)
    requires NoNewline(s) && Holds(s, l) && Bracketed(l) && Holds(l[1..|l| - 1], name)
    ensures var section := Lower(name);
            ScanText(r, s) ==
            Scan(Reader(if section in r.data then r.data else r.data[section := map[]], name, ""), None)
  {
    OneLine(r, s, l);
    TrimHolds(l[1..|l| - 1], name);
  }

  /** `key = value` or `key : value`, possibly with a comment behind it, stores the value under the
      current section, and nothing else. */
  lemma EntryIsRead(r: Reader, s: string, l: string, i: nat, key: string, value: string)
    requires r.section != "" && NoNewline(s) && Holds(s, l) && Plain(l)
    requires 0 < i && Splits(l, i) && Holds(l[..i], key) && HasValue(l[i + 1..], value)
    ensures var section, option := Lower(r.section), Lower(key);
            var options := if section in r.data then r.data[section] else map[];
            ScanText(r, s) == Scan(Reader(r.data[section := options[option := value]], r.section, key), None)
  {
    OneLine(r, s, l);
    SplitsExactly(l, i);
    PlainExactly(l);
    EntryStored(r, l, i);
    EntryParts(l, i, key, value);
    AddOptionMeans(r.data, r.section, key, value);
  }

  /** An entry before any header goes to the section "default". */
  lemma FirstEntryIsRead(s: string, l: string, i: nat, key: string, value: string)
    requires NoNewline(s) && Holds(s, l) && Plain(l)
    requires 0 < i && Splits(l, i) && Holds(l[..i], key) && HasValue(l[i + 1..], value)
    ensures ScanText(START, s) == Scan(Reader(map["default" := map[Lower(key) := value]], "default", key), None)
  {
    EntryIsRead(START, s, l, i, key, value);
    FirstStored(Lower(key), value);
  }

  lemma FirstStored(option: string, value: string)
    ensures START.section == "default" == Lower("default") && Lower("default") in START.data
    ensures START.data["default" := START.data["default"][option := value]] == map["default" := map[option := value]]
  {
    LowerExactly("default");
  }

  lemma EntryParts(l: string, i: nat, key: string, value: string)
    requires i < |l| && Holds(l[..i], key) && HasValue(l[i + 1..], value)
    ensures Trim(l[..i]) == key && Clean(l[i + 1..]) == value
  {
    TrimHolds(l[..i], key);
    ValueIsClean(l[i + 1..], value);
  }

  lemma AddOptionMeans(d: Data, section: string, option: string, value: string)
    ensures var s := Lower(section);
            var m := if s in d then d[s] else map[];
            AddOption(d, section, option, value) == d[s := m[Lower(option) := value]]
  {
  }

  lemma EntryStored(r: Reader, l: string, i: nat)
    requires l != "" && !IsComment(l) && !IsHeader(l)
    requires r.section != "" && 0 < i < |l| && FirstSeparator(l) == i
    ensures Step(r, l) ==
            Scan(Reader(AddOption(r.data, r.section, Trim(l[..i]), Clean(l[i + 1..])), r.section, Trim(l[..i])), None)
  {
  }

  /** While an entry is pending, a line without a separator past its first character extends its
      value by a line. */
  lemma ContinuationIsRead(r: Reader, s: string, l: string, value: string)
    requires r.section != "" && r.option != "" && NoNewline(s) && Holds(s, l) && Plain(l) && !HasEntry(l)
    requires HasValue(l, value)
    requires Lower(r.section) in r.data && Lower(r.option) in r.data[Lower(r.section)]
    ensures var section, option := Lower(r.section), Lower(r.option);
            var options := r.data[section];
            ScanText(r, s) ==
            Scan(r.(data := r.data[section := options[option := options[option] + "\n" + value]]), None)
  {
    OneLine(r, s, l);
    HasEntryExactly(l);
    ValueIsClean(l, value);
    PlainExactly(l);
    StepContinues(r, l);
    PendingValue(r.data, r.section, r.option);
    AddOptionMeans(r.data, r.section, r.option, RawValue(r.data, r.section, r.option) + "\n" + value);
  }

  lemma StepContinues(r: Reader, l: string)
    requires l != "" && !IsComment(l) && !IsHeader(l)
    requires r.section != "" && r.option != "" && FirstSeparator(l) <= 0
    ensures Step(r, l) ==
            Scan(r.(data := AddOption(r.data, r.section, r.option,
                                      RawValue(r.data, r.section, r.option) + "\n" + Clean(l))), None)
  {
  }

  lemma PendingValue(d: Data, section: string, option: string)
    requires section != "" && Lower(section) in d && Lower(option) in d[Lower(section)]
    ensures RawValue(d, section, option) == d[Lower(section)][Lower(option)]
  {
  }

  /** A line is refused exactly when it is plain and no section is open, or it is neither an entry
      nor the continuation of one. A refused line changes nothing. */
  lemma RefusedExactly(r: Reader, s: string, l: string)
    requires NoNewline(s) && Holds(s, l)
    ensures ScanText(r, s).error ==
            if !Plain(l) then None
            else if r.section == "" then Some(BlankSection(l))
            else if !HasEntry(l) && r.option == "" then Some(CouldNotParse(l))
            else None
    ensures ScanText(r, s).error.Some? ==> ScanText(r, s).reader == r
  {
    OneLine(r, s, l);
    HasEntryExactly(l);
    PlainExactly(l);
    StepRefuses(r, l);
  }

  lemma HasEntryExactly(l: string)
    ensures HasEntry(l) <==> FirstSeparator(l) > 0
  {
    SplitsExactly(l, FirstSeparator(l));
    if i :| 0 < i < |l| && Splits(l, i) {
      SplitsExactly(l, i);
    }
  }

  lemma StepRefuses(r: Reader, l: string)
    ensures Step(r, l).error ==
            if l == "" || IsComment(l) || IsHeader(l) then None
            else if r.section == "" then Some(BlankSection(l))
            else if FirstSeparator(l) <= 0 && r.option == "" then Some(CouldNotParse(l))
            else None
    ensures Step(r, l).error.Some? ==> Step(r, l).reader == r
  {
  }
}
