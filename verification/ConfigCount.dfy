/** A counting argument: reading adds at most one piece of a value for each line that is neither
    blank, nor a comment, nor a header. A printed configuration has exactly one such line for
    each piece, unless some piece prints as a header - and then there are too few. */
module ConfigCount {
  import opened Sequences
  import opened Text
  import opened ConfigData
  import opened ConfigRead
  import opened ConfigShape
  import opened ConfigWrite
  import opened ConfigRoundTrip

  /** The pieces of all values: section, option and position in the value. */
  ghost function Cells(d: Data): set<(string, string, nat)> {
    set s, o, k: nat | s in d && o in d[s] && k < |Lines(d[s][o])| :: (s, o, k)
  }

  predicate CanAdd(l: string) {
    l != "" && !IsComment(l) && !IsHeader(l)
  }

  /** A line as it stands in the text can add a piece. */
  predicate Adds(l: string) {
    CanAdd(Trim(l))
  }

  function CountWhere<T>(p: T -> bool, xs: seq<T>): nat {
    if xs == [] then 0 else CountWhere(p, xs[..|xs| - 1]) + if p(xs[|xs| - 1]) then 1 else 0
  }

  function CountAdding(ls: seq<string>): nat {
    CountWhere(Adds, ls)
  }

  lemma {:induction false} CountWhereConcat<T>(p: T -> bool, a: seq<T>, b: seq<T>)
    ensures CountWhere(p, a + b) == CountWhere(p, a) + CountWhere(p, b)
  {
    if b == [] {
      assert a + b == a;
    } else {
      var n := |b| - 1;
      assert (a + b)[..|a| + n] == a + b[..n];
      CountWhereConcat(p, a, b[..n]);
    }
  }

  lemma {:induction false} CountWhereBound<T>(p: T -> bool, xs: seq<T>)
    ensures CountWhere(p, xs) <= |xs|
    ensures (exists x :: x in xs && !p(x)) ==> CountWhere(p, xs) < |xs|
  {
    if xs != [] {
      var n := |xs| - 1;
      CountWhereBound(p, xs[..n]);
      assert xs == xs[..n] + [xs[n]];
    }
  }

  lemma CountWhereOne<T>(p: T -> bool, x: T)
    ensures CountWhere(p, [x]) == if p(x) then 1 else 0
  {
    assert [x][..0] == [];
    assert CountWhere(p, [x][..0]) == 0;
  }

  lemma CountConcat(a: seq<string>, b: seq<string>)
    ensures CountAdding(a + b) == CountAdding(a) + CountAdding(b)
  {
    CountWhereConcat(Adds, a, b);
  }

  lemma CountOne(l: string)
    ensures CountAdding([l]) == if CanAdd(Trim(l)) then 1 else 0
  {
    CountWhereOne(Adds, l);
  }

  // ---------- Reading adds at most one piece a line ----------

  lemma SubsetPlusOne<T>(a: set<T>, b: set<T>, x: T)
    requires a <= b + {x}
    ensures |a| <= |b| + 1
  {
    SubsetSize(a, b + {x});
  }

  lemma {:induction false} SubsetSize<T>(a: set<T>, b: set<T>)
    requires a <= b
    ensures |a| <= |b|
  {
    assert b == a + (b - a);
  }

  lemma InCells(d: Data, s: string, o: string, k: nat)
    ensures (s, o, k) in Cells(d) <==> s in d && o in d[s] && k < |Lines(d[s][o])|
  {
  }

  /** A cell after storing an option is one of that option's or was there before. */
  lemma {:induction false} StoredCell(d: Data, section: string, option: string, v: string, s: string, o: string, k: nat)
    ensures (s, o, k) in Cells(AddOption(d, section, option, v)) ==>
              if s == Lower(section) && o == Lower(option) then k < |Lines(v)| else (s, o, k) in Cells(d)
  {
    InCells(AddOption(d, section, option, v), s, o, k);
    InCells(d, s, o, k);
  }

  lemma {:induction false} StoredCells(d: Data, section: string, option: string, v: string, c: (string, string, nat))
    requires GoodValue(v)
    requires forall k: nat :: k < |Lines(v)| ==>
               (Lower(section), Lower(option), k) in Cells(d) || (Lower(section), Lower(option), k) == c
    ensures |Cells(AddOption(d, section, option, v))| <= |Cells(d)| + 1
  {
    var d' := AddOption(d, section, option, v);
    forall x | x in Cells(d')
      ensures x in Cells(d) + {c}
    {
      StoredCell(d, section, option, v, x.0, x.1, x.2);
      assert x == (x.0, x.1, x.2);
    }
    SubsetPlusOne(Cells(d'), Cells(d), c);
  }

  lemma {:induction false} EntryAddsOne(r: Reader, option: string, v: string)
    requires GoodValue(v) && Lines(v) == [v]
    ensures |Cells(AddOption(r.data, r.section, option, v))| <= |Cells(r.data)| + 1
  {
    StoredCells(r.data, r.section, option, v, (Lower(r.section), Lower(option), 0));
  }

  lemma {:induction false} LongerValueAddsOne(d: Data, section: string, option: string, v: string, w: string)
    requires Lower(section) in d && Lower(option) in d[Lower(section)] && d[Lower(section)][Lower(option)] == v
    requires |Lines(w)| == |Lines(v)| + 1 && GoodValue(w)
    ensures |Cells(AddOption(d, section, option, w))| <= |Cells(d)| + 1
  {
    StoredCells(d, section, option, w, (Lower(section), Lower(option), |Lines(v)|));
  }

  lemma ContinuationAddsOne(r: Reader, p: string)
    requires GoodReader(r) && r.option != "" && GoodNextPiece(p) && NoNewline(p)
    ensures |Cells(AddOption(r.data, r.section, r.option, RawValue(r.data, r.section, r.option) + "\n" + p))|
            <= |Cells(r.data)| + 1
  {
    var s, o := Lower(r.section), Lower(r.option);
    var v := r.data[s][o];
    assert GoodSection(s, r.data[s]);
    ExtendedValue(v, p);
    LongerValueAddsOne(r.data, r.section, r.option, v, v + "\n" + p);
  }

  lemma HeaderAddsNothing(d: Data, section: string)
    ensures Cells(AddSection(d, section)) <= Cells(d)
  {
  }

  lemma EntryLineAddsOne(r: Reader, l: string)
    requires NoNewline(l) && FirstSeparator(l) > 0
    ensures var i := FirstSeparator(l);
            |Cells(AddOption(r.data, r.section, Trim(l[..i]), Clean(l[i + 1..])))| <= |Cells(r.data)| + 1
  {
    var i := FirstSeparator(l);
    var v := Clean(l[i + 1..]);
    EntryValue(l[i + 1..]);
    CleanKeepsNoNewline(l[i + 1..]);
    LinesOfLine(v);
    EntryAddsOne(r, Trim(l[..i]), v);
  }

  lemma StepAddsAtMostOne(r: Reader, l: string)
    requires GoodReader(r) && Trimmed(l) && NoNewline(l)
    ensures |Cells(Step(r, l).reader.data)| <= |Cells(r.data)| + if CanAdd(l) then 1 else 0
  {
    if l == "" || IsComment(l) {
    } else if IsHeader(l) {
      HeaderAddsNothing(r.data, Trim(l[1..|l| - 1]));
      SubsetSize(Cells(Step(r, l).reader.data), Cells(r.data));
    } else if r.section != "" {
      if FirstSeparator(l) > 0 {
        EntryLineAddsOne(r, l);
      } else if r.option != "" {
        ContinuationPiece(l);
        ContinuationAddsOne(r, Clean(l));
      }
    }
  }

  lemma CountFirst(ls: seq<string>)
    requires ls != []
    ensures CountAdding(ls) == (if CanAdd(Trim(ls[0])) then 1 else 0) + CountAdding(ls[1..])
  {
    CountConcat([ls[0]], ls[1..]);
    assert ls == [ls[0]] + ls[1..];
    CountOne(ls[0]);
  }

  lemma {:induction false} ScanAddsAtMost(r: Reader, ls: seq<string>)
    requires GoodReader(r) && AreLines(ls)
    ensures |Cells(ScanLines(r, ls).reader.data)| <= |Cells(r.data)| + CountAdding(ls)
    decreases |ls|
  {
    if ls != [] {
      var l := Trim(ls[0]);
      TrimKeepsNoNewline(ls[0]);
      CountFirst(ls);
      StepAddsAtMostOne(r, l);
      StepKeepsGood(r, l);
      var first := Step(r, l);
      if first.error.None? {
        ScanAddsAtMost(first.reader, ls[1..]);
      }
    }
  }

  // ---------- The printed configuration has one such line for each piece ----------

  lemma CountBelow(ls: seq<string>, k: nat)
    requires k < |ls| && !CanAdd(Trim(ls[k]))
    ensures CountAdding(ls) < |ls|
  {
    CountWhereBound(Adds, ls);
    assert ls[k] in ls && !Adds(ls[k]);
  }

  lemma {:induction false} EntryCount(o: string, v: string)
    requires GoodOptionName(o) && GoodValue(v)
    ensures CountAdding(EntryLines(o, v)) <= |Lines(v)|
    ensures !NoHeaderIn(o, v) ==> CountAdding(EntryLines(o, v)) < |Lines(v)|
  {
    var ls := EntryLines(o, v);
    EntryLinesPrinted(o, v);
    CountWhereBound(Adds, ls);
    if !NoHeaderIn(o, v) {
      HeaderInEntry(o, v);
    }
  }

  lemma HeaderInEntry(o: string, v: string)
    requires GoodOptionName(o) && GoodValue(v) && !NoHeaderIn(o, v)
    ensures CountAdding(EntryLines(o, v)) < |EntryLines(o, v)|
  {
    var ls, ps := EntryLines(o, v), Lines(v);
    if IsHeader(o + "=" + ps[0]) {
      PrintedEntryIsTrimmed(o, ps[0]);
      CountBelow(ls, 0);
    } else {
      var k :| 1 <= k < |ps| && IsHeader(ps[k]);
      TrimTrimmed(ps[k]);
      assert ls[k] == ps[k];
      CountBelow(ls, k);
    }
  }

  /** The cells of one value. */
  ghost function ValueCells(s: string, o: string, n: nat): set<(string, string, nat)> {
    set k: nat | k < n :: (s, o, k)
  }

  lemma {:induction false} ValueCellsSize(s: string, o: string, n: nat)
    ensures |ValueCells(s, o, n)| == n
  {
    if n > 0 {
      ValueCellsSize(s, o, n - 1);
      assert ValueCells(s, o, n) == ValueCells(s, o, n - 1) + {(s, o, n - 1)};
    }
  }

  lemma DisjointSize<T>(a: set<T>, b: set<T>, c: set<T>)
    requires c == a + b && a !! b
    ensures |c| == |a| + |b|
  {
  }

  lemma {:induction false} CellsWithOption(s: string, m: Options, o: string, v: string)
    requires o !in m
    ensures Cells(map[s := m[o := v]]) == Cells(map[s := m]) + ValueCells(s, o, |Lines(v)|)
  {
    forall x: (string, string, nat)
      ensures x in Cells(map[s := m[o := v]]) <==> x in Cells(map[s := m]) + ValueCells(s, o, |Lines(v)|)
    {
      assert x == (x.0, x.1, x.2);
      InCells(map[s := m[o := v]], x.0, x.1, x.2);
      InCells(map[s := m], x.0, x.1, x.2);
    }
  }

  lemma {:induction false} OneMoreOption(s: string, m: Options, o: string, v: string)
    requires o !in m
    ensures |Cells(map[s := m[o := v]])| == |Cells(map[s := m])| + |Lines(v)|
  {
    var n := |Lines(v)|;
    ValueCellsSize(s, o, n);
    CellsWithOption(s, m, o, v);
    assert Cells(map[s := m]) !! ValueCells(s, o, n);
    DisjointSize(Cells(map[s := m]), ValueCells(s, o, n), Cells(map[s := m[o := v]]));
  }

  ghost predicate HeaderFree(m: Options, opts: seq<string>)
    requires forall o :: o in opts ==> o in m
  {
    forall o :: o in opts ==> NoHeaderIn(o, m[o])
  }

  lemma HeaderFreeStep(m: Options, opts: seq<string>)
    requires opts != [] && forall o :: o in opts ==> o in m
    ensures var n := |opts| - 1;
            HeaderFree(m, opts) <==> HeaderFree(m, opts[..n]) && NoHeaderIn(opts[n], m[opts[n]])
  {
    assert opts == opts[..|opts| - 1] + [opts[|opts| - 1]];
  }

  lemma {:induction false} OptionsCount(s: string, m: Options, opts: seq<string>)
    requires Distinct(opts) && forall o :: o in opts ==> o in m && GoodOptionName(o) && GoodValue(m[o])
    ensures CountAdding(OptionLines(m, opts)) <= |Cells(map[s := Sub(m, opts)])|
    ensures !HeaderFree(m, opts) ==> CountAdding(OptionLines(m, opts)) < |Cells(map[s := Sub(m, opts)])|
  {
    if opts != [] {
      var n := |opts| - 1;
      var o := opts[n];
      OptionsCount(s, m, opts[..n]);
      EntryCount(o, m[o]);
      CountConcat(OptionLines(m, opts[..n]), EntryLines(o, m[o]));
      SubStep(m, opts);
      assert o !in opts[..n];
      OneMoreOption(s, Sub(m, opts[..n]), o, m[o]);
      HeaderFreeStep(m, opts);
    }
  }

  ghost predicate NoHeaderSection(m: Options) {
    forall o :: o in m ==> NoHeaderIn(o, m[o])
  }

  lemma SectionCount(s: string, m: Options, opts: seq<string>)
    requires GoodSection(s, m) && Enumerates(opts, m.Keys)
    ensures CountAdding(SectionLines(s, m, opts)) <= |Cells(map[s := m])|
    ensures !NoHeaderSection(m) ==> CountAdding(SectionLines(s, m, opts)) < |Cells(map[s := m])|
  {
    if Skipped(s, m) {
      assert m == map[];
    } else {
      var h := "[" + s + "]";
      OptionsCount(s, m, opts);
      SubAll(m, opts);
      PrintedHeaderLine(s);
      TrimTrimmed("");
      CountConcat([h], OptionLines(m, opts));
      CountConcat([h] + OptionLines(m, opts), [""]);
      CountOne(h);
      CountOne("");
    }
  }

  lemma CellOfNewSection(d: Data, s: string, m: Options, t: string, o: string, k: nat)
    requires s in d ==> d[s] == map[]
    ensures (t, o, k) in Cells(d[s := m]) <==> (t, o, k) in Cells(d) || (t, o, k) in Cells(map[s := m])
    ensures !((t, o, k) in Cells(d) && (t, o, k) in Cells(map[s := m]))
  {
    InCells(d[s := m], t, o, k);
    InCells(d, t, o, k);
    InCells(map[s := m], t, o, k);
  }

  lemma SectionCells(d: Data, s: string, m: Options)
    requires s in d ==> d[s] == map[]
    ensures Cells(d[s := m]) == Cells(d) + Cells(map[s := m])
    ensures Cells(d) !! Cells(map[s := m])
  {
    forall x: (string, string, nat)
      ensures x in Cells(d[s := m]) <==> x in Cells(d) || x in Cells(map[s := m])
      ensures !(x in Cells(d) && x in Cells(map[s := m]))
    {
      CellOfNewSection(d, s, m, x.0, x.1, x.2);
      assert x == (x.0, x.1, x.2);
    }
  }

  lemma OneMoreSection(d: Data, s: string, m: Options)
    requires s in d ==> d[s] == map[]
    ensures |Cells(d[s := m])| == |Cells(d)| + |Cells(map[s := m])|
  {
    SectionCells(d, s, m);
  }

  ghost predicate AllHeaderFree(d: Data, secs: seq<string>)
    requires forall s :: s in secs ==> s in d
  {
    forall s :: s in secs ==> NoHeaderSection(d[s])
  }

  lemma AllHeaderFreeStep(d: Data, secs: seq<string>)
    requires secs != [] && forall s :: s in secs ==> s in d
    ensures var n := |secs| - 1;
            AllHeaderFree(d, secs) <==> AllHeaderFree(d, secs[..n]) && NoHeaderSection(d[secs[n]])
  {
    assert secs == secs[..|secs| - 1] + [secs[|secs| - 1]];
  }

  lemma {:induction false} DocumentCount(d: Data, secs: seq<string>, options: map<string, seq<string>>)
    requires Readable(d) && Distinct(secs) && Covers(d, secs, options)
    requires forall s :: s in secs ==> Enumerates(options[s], d[s].Keys)
    ensures CountAdding(DocumentLines(d, secs, options)) <= |Cells(Partial(d, secs))|
    ensures !AllHeaderFree(d, secs) ==> CountAdding(DocumentLines(d, secs, options)) < |Cells(Partial(d, secs))|
  {
    if secs != [] {
      var n := |secs| - 1;
      var s := secs[n];
      DocumentCount(d, secs[..n], options);
      assert GoodSection(s, d[s]);
      SectionCount(s, d[s], options[s]);
      CountConcat(DocumentLines(d, secs[..n], options), SectionLines(s, d[s], options[s]));
      assert s !in secs[..n];
      PartialStep(d, secs);
      OneMoreSection(Partial(d, secs[..n]), s, d[s]);
      AllHeaderFreeStep(d, secs);
    }
  }

  lemma SomeHeader(d: Data, secs: seq<string>)
    requires Enumerates(secs, d.Keys) && !NoHeaderLines(d)
    ensures !AllHeaderFree(d, secs)
  {
    var s, o :| s in d && o in d[s] && !NoHeaderIn(o, d[s][o]);
    assert s in secs;
    assert !NoHeaderSection(d[s]);
  }

  lemma {:induction false} PrintedCount(d: Data, ord: Order)
    requires Readable(d) && IsOrder(d, ord) && !NoHeaderLines(d)
    ensures CountAdding(DocumentLines(d, ord.sections, ord.options)) < |Cells(d)|
  {
    SomeHeader(d, ord.sections);
    PartialAll(d, ord.sections);
    DocumentCount(d, ord.sections, ord.options);
  }

  lemma NothingAtStart()
    ensures |Cells(START.data)| == 0
  {
    assert Cells(EMPTY) == {};
  }

  /** If some printed line reads as a header, too few pieces come back. */
  lemma HeaderLineLosesPieces(d: Data, header: string, ord: Order)
    requires Readable(d) && IsOrder(d, ord) && NoNewline(header) && !NoHeaderLines(d)
    ensures |Cells(ScanText(START, Print(d, header, ord)).reader.data)| < |Cells(d)|
  {
    var doc := DocumentLines(d, ord.sections, ord.options);
    ScanPrinted(d, header, ord);
    DocumentLinesPrinted(d, ord.sections, ord.options);
    StartIsGood();
    NothingAtStart();
    PrintedCount(d, ord);
    ScanAddsAtMost(START, doc);
  }

  // ---------- The theorem ----------

  /** A configuration survives being written and read back exactly when it is well-formed - and
      if it does for one header line and one order of the maps, it does for all of them. */
  lemma RoundTrip(d: Data, header: string, ord: Order)
    requires IsOrder(d, ord) && NoNewline(header)
    ensures ReadsBack(Print(d, header, ord), d) <==> WellFormed(d)
  {
    if WellFormed(d) {
      WellFormedReadsBack(d, header, ord);
    } else if ReadsBack(Print(d, header, ord), d) {
      ReadingYieldsReadable(Print(d, header, ord));
      HeaderLineLosesPieces(d, header, ord);
    }
  }
}
