/** The shape of configurations: what every configuration read from text looks like, and the
    exact condition under which a configuration survives being written and read back. */
module ConfigShape {
  import opened Text
  import opened ConfigData
  import opened ConfigRead

  predicate GoodSectionName(s: string) {
    IsLower(s) && Trimmed(s) && NoNewline(s)
  }

  predicate GoodOptionName(o: string) {
    o != "" && IsLower(o) && Trimmed(o) && NoNewline(o) && FirstSeparator(o) == -1 && !IsComment(o)
  }

  /** The part of a value on its option's line. */
  predicate GoodFirstPiece(p: string) {
    Trimmed(p) && NoComment(p)
  }

  /** A later piece of a multi-line value: a line of its own that reads as a continuation. A
      separator is harmless when it is the first character. */
  predicate GoodNextPiece(p: string) {
    p != "" && Trimmed(p) && NoComment(p) && !IsComment(p) && FirstSeparator(p) <= 0
  }

  predicate GoodValue(v: string) {
    var ps := Lines(v);
    GoodFirstPiece(ps[0]) && forall k :: 1 <= k < |ps| ==> GoodNextPiece(ps[k])
  }

  predicate GoodSection(s: string, m: Options) {
    && GoodSectionName(s)
    && (s == "" ==> m == map[])
    && forall o :: o in m ==> GoodOptionName(o) && GoodValue(m[o])
  }

  /** The shape of everything a fresh configuration can be after reading. */
  predicate Readable(d: Data) {
    DEFAULT_SECTION in d && forall s :: s in d ==> GoodSection(s, d[s])
  }

  /** No line printed for the option would be taken for a section header. */
  predicate NoHeaderIn(o: string, v: string) {
    var ps := Lines(v);
    !IsHeader(o + "=" + ps[0]) && forall k :: 1 <= k < |ps| ==> !IsHeader(ps[k])
  }

  predicate NoHeaderLines(d: Data) {
    forall s :: s in d ==> forall o :: o in d[s] ==> NoHeaderIn(o, d[s][o])
  }

  /** The condition for a round trip: see ConfigRoundTrip. */
  predicate WellFormed(d: Data) {
    Readable(d) && NoHeaderLines(d)
  }

  /** What holds between two lines of a reader that started on a fresh configuration. A pending
      option is always stored under the current section. */
  predicate GoodReader(r: Reader) {
    && Readable(r.data)
    && Trimmed(r.section) && NoNewline(r.section) && Lower(r.section) in r.data
    && (r.option != "" ==> r.section != "" && Lower(r.option) in r.data[Lower(r.section)])
  }

  lemma StartIsGood()
    ensures GoodReader(START)
  {
    assert Lower(DEFAULT_SECTION) == DEFAULT_SECTION;
  }

  lemma CommentLower(l: string)
    ensures IsComment(Lower(l)) <==> IsComment(l)
  {
  }

  lemma CommentPrefix(p: string, l: string)
    requires p <= l && IsComment(p)
    ensures IsComment(l)
  {
  }

  lemma OptionNameOfLine(l: string)
    requires l != "" && Trimmed(l) && NoNewline(l) && !IsComment(l) && FirstSeparator(l) > 0
    ensures GoodOptionName(Lower(Trim(l[..FirstSeparator(l)])))
  {
    var i := FirstSeparator(l);
    TrimPrefix(l[..i]);
    var p := Trim(l[..i]);
    assert p <= l;
    LowerIdempotent(p);
    LowerKeepsTrimmed(p);
    CommentLower(p);
    if IsComment(p) {
      CommentPrefix(p, l);
    }
    var o := Lower(p);
    forall j | 0 <= j < |o|
      ensures !IsSeparator(o[j]) && o[j] != '\n'
    {
      assert p[j] == l[j];
      assert l[j] in l;
    }
  }

  lemma CleanKeepsNoNewline(l: string)
    requires NoNewline(l)
    ensures NoNewline(Clean(l))
  {
    TrimKeepsNoNewline(StripComments(l));
  }

  /** Cleaning a visible line leaves a visible prefix of it. */
  lemma CleanLine(l: string)
    requires l != "" && !IsSpace(l[0])
    ensures Clean(l) != "" && Clean(l) <= l
  {
    assert !CommentAt(l, 0);
    var t := StripComments(l);
    assert t != "" && t[0] == l[0];
    TrimPrefix(t);
  }

  lemma ContinuationPiece(l: string)
    requires l != "" && Trimmed(l) && NoNewline(l) && !IsComment(l) && FirstSeparator(l) <= 0
    ensures GoodNextPiece(Clean(l)) && NoNewline(Clean(l))
  {
    CleanKeepsNoNewline(l);
    CleanIsClean(l);
    CleanLine(l);
    var p := Clean(l);
    if IsComment(p) {
      CommentPrefix(p, l);
    }
  }

  lemma {:induction false} ExtendedValue(v: string, p: string)
    requires GoodValue(v) && GoodNextPiece(p) && NoNewline(p)
    ensures Lines(v + "\n" + p) == Lines(v) + [p] && GoodValue(v + "\n" + p)
  {
    LinesConcat(v, p);
    LinesOfLine(p);
  }

  lemma AddSectionKeepsReadable(d: Data, section: string)
    requires Readable(d) && Trimmed(section) && NoNewline(section)
    ensures Readable(AddSection(d, section)) && Lower(section) in AddSection(d, section)
  {
    LowerIdempotent(section);
    LowerKeepsTrimmed(section);
    LowerKeepsNoNewline(section);
  }

  lemma AddOptionKeepsReadable(d: Data, section: string, option: string, value: string)
    requires Readable(d) && section != "" && Lower(section) in d
    requires GoodOptionName(Lower(option)) && GoodValue(value)
    ensures Readable(AddOption(d, section, option, value))
    ensures Lower(option) in AddOption(d, section, option, value)[Lower(section)]
  {
    var s := Lower(section);
    assert s != "" && GoodSection(s, d[s]);
    assert GoodSection(s, d[s][Lower(option) := value]);
  }

  lemma {:induction false} OneLineValue(v: string)
    requires GoodFirstPiece(v) && NoNewline(v)
    ensures Lines(v) == [v] && GoodValue(v)
  {
    LinesOfLine(v);
  }

  lemma EntryValue(l: string)
    requires NoNewline(l)
    ensures GoodValue(Clean(l))
  {
    CleanIsClean(l);
    CleanKeepsNoNewline(l);
    OneLineValue(Clean(l));
  }

  lemma EntryKeepsGood(r: Reader, option: string, value: string)
    requires GoodReader(r) && r.section != ""
    requires GoodOptionName(Lower(option)) && GoodValue(value)
    ensures GoodReader(Reader(AddOption(r.data, r.section, option, value), r.section, option))
  {
    AddOptionKeepsReadable(r.data, r.section, option, value);
  }

  lemma ContinuationKeepsGood(r: Reader, l: string)
    requires GoodReader(r) && Trimmed(l) && NoNewline(l) && r.option != ""
    requires l != "" && !IsComment(l) && FirstSeparator(l) <= 0
    ensures GoodReader(r.(data := AddOption(r.data, r.section, r.option,
                                            RawValue(r.data, r.section, r.option) + "\n" + Clean(l))))
  {
    var s, o := Lower(r.section), Lower(r.option);
    assert GoodSection(s, r.data[s]);
    ContinuationPiece(l);
    ExtendedValue(r.data[s][o], Clean(l));
    AddOptionKeepsReadable(r.data, r.section, r.option, r.data[s][o] + "\n" + Clean(l));
  }

  /** Every line keeps the reader's data readable and its pending option stored. */
  lemma StepKeepsGood(r: Reader, l: string)
    requires GoodReader(r) && Trimmed(l) && NoNewline(l)
    ensures GoodReader(Step(r, l).reader)
  {
    if l == "" || IsComment(l) {
    } else if IsHeader(l) {
      TrimKeepsNoNewline(l[1..|l| - 1]);
      AddSectionKeepsReadable(r.data, Trim(l[1..|l| - 1]));
    } else if r.section != "" {
      if FirstSeparator(l) > 0 {
        var i := FirstSeparator(l);
        OptionNameOfLine(l);
        EntryValue(l[i + 1..]);
        EntryKeepsGood(r, Trim(l[..i]), Clean(l[i + 1..]));
      } else if r.option != "" {
        ContinuationKeepsGood(r, l);
      }
    }
  }

  lemma {:induction false} ScanKeepsGood(r: Reader, ls: seq<string>)
    requires GoodReader(r) && forall l :: l in ls ==> NoNewline(l)
    ensures GoodReader(ScanLines(r, ls).reader)
    decreases |ls|
  {
    if ls != [] {
      var l := Trim(ls[0]);
      TrimKeepsNoNewline(ls[0]);
      StepKeepsGood(r, l);
      ScanKeepsGood(Step(r, l).reader, ls[1..]);
    }
  }

  /** Whatever text is read into a fresh configuration, even up to an error, the data is readable. */
  lemma ReadingYieldsReadable(text: string)
    ensures GoodReader(ScanText(START, text).reader)
  {
    StartIsGood();
    ScanKeepsGood(START, Lines(text));
  }

  /** For a continuation line the look-up whose error the source ignores finds the pending
      option, and the line only ever extends that option's value. */
  lemma ContinuationExtends(r: Reader, l: string)
    requires GoodReader(r) && Trimmed(l) && l != "" && !IsComment(l) && !IsHeader(l)
    requires r.section != "" && FirstSeparator(l) <= 0
    ensures Step(r, l).error.Some? <==> r.option == ""
    ensures r.option != "" ==>
              var s, o := Lower(r.section), Lower(r.option);
              && LookupSection(r.section) == s && s in r.data && o in r.data[s]
              && Step(r, l).reader.data == r.data[s := r.data[s][o := r.data[s][o] + "\n" + Clean(l)]]
  {
  }
}
