/** Writing a configuration and reading the text back. */
module ConfigRoundTrip {
  import opened Sequences
  import opened Text
  import opened Wrappers
  import opened ConfigData
  import opened ConfigRead
  import opened ConfigShape
  import opened ConfigWrite

  // ---------- Reading one printed line ----------

  lemma PrintedEntrySplits(o: string, p: string)
    requires FirstSeparator(o) == -1
    ensures var l := o + "=" + p; FirstSeparator(l) == |o| && l[..|o|] == o && l[|o| + 1..] == p
  {
    var l := o + "=" + p;
    assert l[|o|] == '=';
    assert forall j :: 0 <= j < |o| ==> l[j] == o[j];
  }

  lemma PrintedEntryIsTrimmed(o: string, p: string)
    requires o != "" && Trimmed(o) && Trimmed(p)
    ensures Trim(o + "=" + p) == o + "=" + p
  {
    TrimTrimmed(o + "=" + p);
  }

  lemma CleanGoodPiece(p: string)
    requires GoodFirstPiece(p)
    ensures Clean(p) == p
  {
    StripNoComment(p);
    TrimTrimmed(p);
  }

  lemma PrintedEntryIsNoComment(o: string, p: string)
    requires o != "" && !IsComment(o)
    ensures !IsComment(o + "=" + p)
  {
    var l := o + "=" + p;
    assert l[|o|] == '=';
    assert forall j :: 0 <= j < |o| ==> l[j] == o[j];
  }

  lemma ReadEntryLine(r: Reader, o: string, p: string)
    requires GoodOptionName(o) && GoodFirstPiece(p) && !IsHeader(o + "=" + p) && r.section != ""
    ensures Step(r, Trim(o + "=" + p)) == Scan(Reader(AddOption(r.data, r.section, o, p), r.section, o), None)
  {
    PrintedEntryIsTrimmed(o, p);
    PrintedEntryIsNoComment(o, p);
    PrintedEntrySplits(o, p);
    TrimTrimmed(o);
    CleanGoodPiece(p);
  }

  lemma ReadPiece(r: Reader, o: string, v: string, p: string)
    requires GoodNextPiece(p) && !IsHeader(p) && r.section != "" && o != ""
    ensures Step(Reader(AddOption(r.data, r.section, o, v), r.section, o), Trim(p)) ==
            Scan(Reader(AddOption(r.data, r.section, o, v + "\n" + p), r.section, o), None)
  {
    TrimTrimmed(p);
    CleanGoodPiece(p);
    AddOptionTwice(r.data, r.section, o, v, v + "\n" + p);
    assert RawValue(AddOption(r.data, r.section, o, v), r.section, o) == v;
  }

  /** A value with further pieces appended, one line each. */
  function Extend(v: string, ps: seq<string>): string
    decreases |ps|
  {
    if ps == [] then v else Extend(v + "\n" + ps[0], ps[1..])
  }

  lemma {:induction false} ExtendTerminates(v: string, ps: seq<string>)
    ensures Extend(v, ps) + "\n" == v + "\n" + Terminate(ps)
    decreases |ps|
  {
    if ps != [] {
      ExtendTerminates(v + "\n" + ps[0], ps[1..]);
      TerminateConcat([ps[0]], ps[1..]);
      assert ps == [ps[0]] + ps[1..];
      assert Terminate([ps[0]]) == ps[0] + "\n";
    }
  }

  lemma {:induction false} ExtendFirstPiece(v: string)
    ensures Extend(Lines(v)[0], Lines(v)[1..]) == v
  {
    var ps := Lines(v);
    ExtendTerminates(ps[0], ps[1..]);
    TerminateLines(v);
    TerminateConcat([ps[0]], ps[1..]);
    assert ps == [ps[0]] + ps[1..];
    assert Terminate([ps[0]]) == ps[0] + "\n";
    assert Extend(ps[0], ps[1..]) + "\n" == v + "\n";
    SameBeforeNewline(Extend(ps[0], ps[1..]), v);
  }

  lemma SameBeforeNewline(a: string, b: string)
    requires a + "\n" == b + "\n"
    ensures a == b
  {
    assert a == (a + "\n")[..|a|];
    assert b == (b + "\n")[..|b|];
    assert |a + "\n"| == |b + "\n"|;
  }

  lemma {:induction false} ReadPieces(r: Reader, o: string, v: string, ps: seq<string>)
    requires r.section != "" && o != ""
    requires forall p :: p in ps ==> GoodNextPiece(p) && !IsHeader(p)
    ensures ScanLines(Reader(AddOption(r.data, r.section, o, v), r.section, o), ps) ==
            Scan(Reader(AddOption(r.data, r.section, o, Extend(v, ps)), r.section, o), None)
    decreases |ps|
  {
    if ps != [] {
      ReadPiece(r, o, v, ps[0]);
      ReadPieces(r, o, v + "\n" + ps[0], ps[1..]);
    }
  }

  lemma {:induction false} ReadEntry(r: Reader, o: string, v: string)
    requires GoodOptionName(o) && GoodValue(v) && NoHeaderIn(o, v) && r.section != ""
    ensures ScanLines(r, EntryLines(o, v)) == Scan(Reader(AddOption(r.data, r.section, o, v), r.section, o), None)
  {
    var ps := Lines(v);
    ReadEntryLine(r, o, ps[0]);
    ReadPieces(r, o, ps[0], ps[1..]);
    ExtendFirstPiece(v);
    assert EntryLines(o, v)[1..] == ps[1..];
  }

  // ---------- Reading the printed sections ----------

  /** The options already printed. */
  function Sub(m: Options, opts: seq<string>): Options {
    map o | o in m && o in opts :: m[o]
  }

  /** The sections already printed; the default section exists from the start. */
  function Partial(d: Data, secs: seq<string>): Data {
    map s | s in d && (s in secs || s == DEFAULT_SECTION) :: if s in secs then d[s] else map[]
  }

  lemma AddStoredOption(d: Data, s: string, m: Options, o: string, v: string)
    requires IsLower(s) && IsLower(o)
    ensures AddOption(d[s := m], s, o, v) == d[s := m[o := v]]
  {
  }

  lemma SubStep(m: Options, opts: seq<string>)
    requires opts != [] && opts[|opts| - 1] in m
    ensures var n := |opts| - 1; Sub(m, opts) == Sub(m, opts[..n])[opts[n] := m[opts[n]]]
  {
    assert opts == opts[..|opts| - 1] + [opts[|opts| - 1]];
  }

  lemma SubAll(m: Options, opts: seq<string>)
    requires Enumerates(opts, m.Keys)
    ensures Sub(m, opts) == m && (m == map[] ==> opts == [])
  {
    if opts != [] {
      assert opts[0] in opts;
    }
  }

  function LastOf(opts: seq<string>): string {
    if opts == [] then "" else opts[|opts| - 1]
  }

  /** The text in two parts, both accepted. */
  lemma {:induction false} ReadBoth(r: Reader, a: seq<string>, r1: Reader, b: seq<string>, r2: Reader)
    requires ScanLines(r, a) == Scan(r1, None) && ScanLines(r1, b) == Scan(r2, None)
    ensures ScanLines(r, a + b) == Scan(r2, None)
  {
    ScanConcat(r, a, b);
  }

  lemma {:induction false} ReadOptions(base: Data, s: string, m: Options, opts: seq<string>)
    requires IsLower(s) && (s == "" ==> opts == [])
    requires forall o :: o in opts ==> o in m && GoodOptionName(o) && GoodValue(m[o]) && NoHeaderIn(o, m[o])
    ensures ScanLines(Reader(base[s := map[]], s, ""), OptionLines(m, opts)) ==
            Scan(Reader(base[s := Sub(m, opts)], s, LastOf(opts)), None)
  {
    if opts == [] {
      assert Sub(m, opts) == map[];
    } else {
      var n := |opts| - 1;
      var o := opts[n];
      ReadOptions(base, s, m, opts[..n]);
      var mid := Reader(base[s := Sub(m, opts[..n])], s, LastOf(opts[..n]));
      ReadEntry(mid, o, m[o]);
      AddStoredOption(base, s, Sub(m, opts[..n]), o, m[o]);
      SubStep(m, opts);
      ReadBoth(Reader(base[s := map[]], s, ""), OptionLines(m, opts[..n]), mid, EntryLines(o, m[o]),
               Reader(base[s := Sub(m, opts)], s, o));
    }
  }

  lemma PrintedHeaderLine(s: string)
    ensures var l := "[" + s + "]";
            Trim(l) == l && IsHeader(l) && !IsComment(l) && l[1..|l| - 1] == s
  {
    var l := "[" + s + "]";
    assert l[0] == '[' && l[|l| - 1] == ']';
    TrimTrimmed(l);
  }

  lemma ReadSectionHeader(r: Reader, s: string)
    requires Trimmed(s)
    ensures Step(r, Trim("[" + s + "]")) == Scan(Reader(AddSection(r.data, s), s, ""), None)
  {
    PrintedHeaderLine(s);
    TrimTrimmed(s);
  }

  /** A first line, some lines that end in `r2`, and an empty line. */
  lemma {:induction false} ReadFramed(r: Reader, h: string, r1: Reader, body: seq<string>, r2: Reader)
    requires Step(r, Trim(h)) == Scan(r1, None)
    requires ScanLines(r1, body) == Scan(r2, None)
    ensures ScanLines(r, [h] + body + [""]) == Scan(r2, None)
  {
    ScanBlank(r2);
    ReadBoth(r1, body, r2, [""], r2);
    ScanFirst(r, h, body + [""]);
    assert [h] + body + [""] == [h] + (body + [""]);
  }

  lemma {:induction false} ReadPrintedSection(r: Reader, s: string, m: Options, opts: seq<string>)
    requires GoodSection(s, m) && Enumerates(opts, m.Keys) && (forall o :: o in m ==> NoHeaderIn(o, m[o]))
    requires (s in r.data ==> r.data[s] == map[]) && !Skipped(s, m)
    ensures ScanLines(r, SectionLines(s, m, opts)) == Scan(Reader(r.data[s := m], s, LastOf(opts)), None)
  {
    SubAll(m, opts);
    ReadOptions(r.data, s, m, opts);
    ReadSectionHeader(r, s);
    assert AddSection(r.data, s) == r.data[s := map[]];
    var r1 := Reader(r.data[s := map[]], s, "");
    ReadFramed(r, "[" + s + "]", r1, OptionLines(m, opts), Reader(r.data[s := m], s, LastOf(opts)));
  }

  lemma {:induction false} ReadSection(r: Reader, s: string, m: Options, opts: seq<string>)
    requires GoodSection(s, m) && Enumerates(opts, m.Keys) && (forall o :: o in m ==> NoHeaderIn(o, m[o]))
    requires s in r.data ==> r.data[s] == map[]
    requires Skipped(s, m) ==> s in r.data
    ensures ScanLines(r, SectionLines(s, m, opts)).error.None?
    ensures ScanLines(r, SectionLines(s, m, opts)).reader.data == r.data[s := m]
  {
    if Skipped(s, m) {
      assert m == map[];
      assert r.data[s := m] == r.data;
    } else {
      ReadPrintedSection(r, s, m, opts);
    }
  }

  lemma {:induction false} ScanFirst(r: Reader, l: string, ls: seq<string>)
    ensures var first := Step(r, Trim(l));
            ScanLines(r, [l] + ls) == if first.error.Some? then first else ScanLines(first.reader, ls)
  {
    assert ([l] + ls)[1..] == ls;
  }

  lemma PartialStep(d: Data, secs: seq<string>)
    requires secs != [] && secs[|secs| - 1] in d && DEFAULT_SECTION in d
    ensures var n := |secs| - 1; Partial(d, secs) == Partial(d, secs[..n])[secs[n] := d[secs[n]]]
  {
    assert secs == secs[..|secs| - 1] + [secs[|secs| - 1]];
  }

  lemma PartialAll(d: Data, secs: seq<string>)
    requires DEFAULT_SECTION in d && Enumerates(secs, d.Keys)
    ensures Partial(d, secs) == d
  {
  }

  lemma {:induction false} ReadDocument(r: Reader, d: Data, secs: seq<string>, options: map<string, seq<string>>)
    requires r.data == EMPTY && WellFormed(d) && Distinct(secs) && Covers(d, secs, options)
    requires forall s :: s in secs ==> Enumerates(options[s], d[s].Keys)
    ensures var after := ScanLines(r, DocumentLines(d, secs, options));
            after.error.None? && after.reader.data == Partial(d, secs)
  {
    if secs == [] {
      assert Partial(d, secs) == EMPTY;
    } else {
      var n := |secs| - 1;
      var s := secs[n];
      ReadDocument(r, d, secs[..n], options);
      var mid := ScanLines(r, DocumentLines(d, secs[..n], options)).reader;
      assert s !in secs[..n];
      assert GoodSection(s, d[s]);
      ReadSection(mid, s, d[s], options[s]);
      ScanConcat(r, DocumentLines(d, secs[..n], options), SectionLines(s, d[s], options[s]));
      PartialStep(d, secs);
    }
  }

  lemma {:induction false} ReadHeader(r: Reader, header: string)
    ensures ScanLines(r, HeaderLines(header)) == Scan(r, None)
  {
    if header != "" {
      var l := "# " + header;
      TrimPrefix(l);
      assert Trim(l)[0] == '#';
    }
  }

  /** The text, read into a fresh configuration, gives exactly `d`. */
  ghost predicate ReadsBack(text: string, d: Data) {
    var s := ScanText(START, text);
    s.error.None? && s.reader.data == d
  }

  lemma {:induction false} ScanPrinted(d: Data, header: string, ord: Order)
    requires Readable(d) && IsOrder(d, ord) && NoNewline(header)
    ensures ScanText(START, Print(d, header, ord)) == ScanLines(START, DocumentLines(d, ord.sections, ord.options))
  {
    var doc := DocumentLines(d, ord.sections, ord.options);
    LinesOfPrinted(d, header, ord);
    ScanConcat(START, HeaderLines(header) + doc, [""]);
    ScanConcat(START, HeaderLines(header), doc);
    ReadHeader(START, header);
    var s := ScanLines(START, doc);
    if s.error.None? {
      ScanBlank(s.reader);
    }
  }

  /** A well-formed configuration survives: whatever header line is written and in whatever
      order the maps are visited, reading the text gives the same configuration. */
  lemma WellFormedReadsBack(d: Data, header: string, ord: Order)
    requires WellFormed(d) && IsOrder(d, ord) && NoNewline(header)
    ensures ReadsBack(Print(d, header, ord), d)
  {
    ScanPrinted(d, header, ord);
    ReadDocument(START, d, ord.sections, ord.options);
    PartialAll(d, ord.sections);
  }
}
