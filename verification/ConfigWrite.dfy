/** Printing a configuration (conf/write.go). Go visits maps in an arbitrary order, so the text
    is a function of the configuration, the header and the order in which keys came up. */
module ConfigWrite {
  import opened Sequences
  import opened Text
  import opened ConfigData
  import opened ConfigShape

  /** One possible iteration order: the sections, and the options of each section. */
  datatype Order = Order(sections: seq<string>, options: map<string, seq<string>>)

  ghost predicate IsOrder(d: Data, ord: Order) {
    && Enumerates(ord.sections, d.Keys)
    && forall s :: s in d ==> s in ord.options && Enumerates(ord.options[s], d[s].Keys)
  }

  function PrintOptions(m: Options, opts: seq<string>): string
    requires forall o :: o in opts ==> o in m
  {
    if opts == [] then ""
    else
      var n := |opts| - 1;
      PrintOptions(m, opts[..n]) + (opts[n] + "=" + m[opts[n]] + "\n")
  }

  /** The default section is left out when it has no options. */
  predicate Skipped(s: string, m: Options) {
    s == DEFAULT_SECTION && |m| == 0
  }

  function PrintSection(s: string, m: Options, opts: seq<string>): string
    requires forall o :: o in opts ==> o in m
  {
    if Skipped(s, m) then "" else "[" + s + "]\n" + PrintOptions(m, opts) + "\n"
  }

  /** The order names sections of `d` only, each with options of that section only. */
  predicate Covers(d: Data, secs: seq<string>, options: map<string, seq<string>>) {
    forall s :: s in secs ==> s in d && s in options && forall o :: o in options[s] ==> o in d[s]
  }

  function PrintSections(d: Data, secs: seq<string>, options: map<string, seq<string>>): string
    requires Covers(d, secs, options)
  {
    if secs == [] then ""
    else
      var n := |secs| - 1;
      var s := secs[n];
      PrintSections(d, secs[..n], options) + PrintSection(s, d[s], options[s])
  }

  function PrintHeader(header: string): string {
    if header != "" then "# " + header + "\n" else ""
  }

  function Print(d: Data, header: string, ord: Order): string
    requires IsOrder(d, ord)
  {
    PrintHeader(header) + PrintSections(d, ord.sections, ord.options)
  }

  // ---------- The printed text as a whole ----------

  predicate AreEntries(entries: seq<string>, m: Options, opts: seq<string>)
    requires forall o :: o in opts ==> o in m
  {
    |entries| == |opts| && forall i :: 0 <= i < |opts| ==> entries[i] == opts[i] + "=" + m[opts[i]] + "\n"
  }

  ghost predicate HasEntries(chunk: string, m: Options, opts: seq<string>)
    requires forall o :: o in opts ==> o in m
  {
    exists entries :: AreEntries(entries, m, opts) && chunk == Concat(entries)
  }

  /** A section's header line, each of its options once, and an empty line. */
  ghost predicate IsBlock(block: string, s: string, m: Options) {
    exists opts, chunk :: Enumerates(opts, m.Keys) && HasEntries(chunk, m, opts) &&
                          block == "[" + s + "]\n" + chunk + "\n"
  }

  ghost predicate AreBlocks(blocks: seq<string>, d: Data, secs: seq<string>)
    requires forall s :: s in secs ==> s in d
  {
    |blocks| == |secs| && forall i :: 0 <= i < |secs| ==> IsBlock(blocks[i], secs[i], d[secs[i]])
  }

  /** The sections that are printed: all but an empty default section. */
  function Printed(d: Data): set<string> {
    set s | s in d && (s != "default" || d[s] != map[])
  }

  /** Each section that is printed once. */
  ghost predicate IsBody(body: string, d: Data) {
    exists secs, blocks :: Enumerates(secs, Printed(d)) && AreBlocks(blocks, d, secs) && body == Concat(blocks)
  }

  lemma {:induction false} EntriesOf(m: Options, opts: seq<string>) returns (entries: seq<string>)
    requires forall o :: o in opts ==> o in m
    ensures AreEntries(entries, m, opts) && PrintOptions(m, opts) == Concat(entries)
  {
    entries := [];
    if opts != [] {
      var n := |opts| - 1;
      var before := EntriesOf(m, opts[..n]);
      var entry := opts[n] + "=" + m[opts[n]] + "\n";
      ConcatMore(before, entry);
      entries := before + [entry];
    }
  }

  lemma SectionIsBlock(s: string, m: Options, opts: seq<string>)
    requires Enumerates(opts, m.Keys)
    ensures if s == "default" && m == map[] then PrintSection(s, m, opts) == ""
            else IsBlock(PrintSection(s, m, opts), s, m)
  {
    var entries := EntriesOf(m, opts);
    assert HasEntries(PrintOptions(m, opts), m, opts);
  }

  /** Those of the sections that are printed, each once. */
  ghost predicate Shows(shown: seq<string>, d: Data, secs: seq<string>) {
    Distinct(shown) && forall s :: s in shown <==> s in secs && s in Printed(d)
  }

  lemma ShowsMore(shown: seq<string>, d: Data, secs: seq<string>, s: string)
    requires Shows(shown, d, secs) && s !in secs
    ensures Shows(if s in Printed(d) then shown + [s] else shown, d, secs + [s])
  {
  }

  lemma BlocksMore(blocks: seq<string>, d: Data, shown: seq<string>, s: string, block: string)
    requires (forall x :: x in shown ==> x in d) && AreBlocks(blocks, d, shown)
    requires s in d && IsBlock(block, s, d[s])
    ensures AreBlocks(blocks + [block], d, shown + [s])
  {
  }

  lemma {:induction false} BlocksOf(d: Data, secs: seq<string>, options: map<string, seq<string>>)
    returns (shown: seq<string>, blocks: seq<string>)
    requires Covers(d, secs, options) && Distinct(secs)
    requires forall s :: s in secs ==> Enumerates(options[s], d[s].Keys)
    ensures Shows(shown, d, secs)
    ensures AreBlocks(blocks, d, shown) && PrintSections(d, secs, options) == Concat(blocks)
    decreases |secs|
  {
    shown, blocks := [], [];
    if secs != [] {
      var n := |secs| - 1;
      var s := secs[n];
      assert secs == secs[..n] + [s];
      shown, blocks := BlocksOf(d, secs[..n], options);
      var block := PrintSection(s, d[s], options[s]);
      SectionIsBlock(s, d[s], options[s]);
      ShowsMore(shown, d, secs[..n], s);
      if s in Printed(d) {
        ConcatMore(blocks, block);
        BlocksMore(blocks, d, shown, s, block);
        shown, blocks := shown + [s], blocks + [block];
      }
    }
  }

  /** The printed text is the header line, if there is a header, and the sections. */
  lemma PrintedExactly(d: Data, header: string, ord: Order)
    requires IsOrder(d, ord)
    ensures exists body :: IsBody(body, d) &&
                           Print(d, header, ord) == (if header == "" then "" else "# " + header + "\n") + body
  {
    var shown, blocks := BlocksOf(d, ord.sections, ord.options);
    assert Enumerates(shown, Printed(d));
    assert IsBody(PrintSections(d, ord.sections, ord.options), d);
  }

  // ---------- The printed text, line by line ----------

  function EntryLines(o: string, v: string): seq<string> {
    [o + "=" + Lines(v)[0]] + Lines(v)[1..]
  }

  function OptionLines(m: Options, opts: seq<string>): seq<string>
    requires forall o :: o in opts ==> o in m
  {
    if opts == [] then []
    else
      var n := |opts| - 1;
      OptionLines(m, opts[..n]) + EntryLines(opts[n], m[opts[n]])
  }

  function SectionLines(s: string, m: Options, opts: seq<string>): seq<string>
    requires forall o :: o in opts ==> o in m
  {
    if Skipped(s, m) then [] else ["[" + s + "]"] + OptionLines(m, opts) + [""]
  }

  function DocumentLines(d: Data, secs: seq<string>, options: map<string, seq<string>>): seq<string>
    requires Covers(d, secs, options)
  {
    if secs == [] then []
    else
      var n := |secs| - 1;
      var s := secs[n];
      DocumentLines(d, secs[..n], options) + SectionLines(s, d[s], options[s])
  }

  function HeaderLines(header: string): seq<string> {
    if header != "" then ["# " + header] else []
  }

  ghost predicate AreLines(ls: seq<string>) {
    forall l :: l in ls ==> NoNewline(l)
  }

  lemma {:induction false} EntryLinesPrinted(o: string, v: string)
    requires NoNewline(o)
    ensures Terminate(EntryLines(o, v)) == o + "=" + v + "\n"
    ensures AreLines(EntryLines(o, v)) && |EntryLines(o, v)| == |Lines(v)|
  {
    LinesPrefixed(o + "=", v);
    TerminateLines(o + "=" + v);
  }

  lemma {:induction false} OptionLinesPrinted(m: Options, opts: seq<string>)
    requires forall o :: o in opts ==> o in m && NoNewline(o)
    ensures Terminate(OptionLines(m, opts)) == PrintOptions(m, opts)
    ensures AreLines(OptionLines(m, opts))
  {
    if opts != [] {
      var n := |opts| - 1;
      OptionLinesPrinted(m, opts[..n]);
      EntryLinesPrinted(opts[n], m[opts[n]]);
      TerminateConcat(OptionLines(m, opts[..n]), EntryLines(opts[n], m[opts[n]]));
    }
  }

  lemma SectionLinesPrinted(s: string, m: Options, opts: seq<string>)
    requires NoNewline(s) && forall o :: o in opts ==> o in m && NoNewline(o)
    ensures Terminate(SectionLines(s, m, opts)) == PrintSection(s, m, opts)
    ensures AreLines(SectionLines(s, m, opts))
  {
    OptionLinesPrinted(m, opts);
    var h := "[" + s + "]";
    TerminateConcat([h], OptionLines(m, opts));
    TerminateConcat([h] + OptionLines(m, opts), [""]);
    assert Terminate([h]) == h + "\n";
    assert Terminate([""]) == "\n";
    assert "[" + s + "]\n" == h + "\n";
  }

  lemma {:induction false} DocumentLinesPrinted(d: Data, secs: seq<string>, options: map<string, seq<string>>)
    requires Readable(d)
    requires Covers(d, secs, options)
    ensures Terminate(DocumentLines(d, secs, options)) == PrintSections(d, secs, options)
    ensures AreLines(DocumentLines(d, secs, options))
  {
    if secs != [] {
      var n := |secs| - 1;
      var s := secs[n];
      DocumentLinesPrinted(d, secs[..n], options);
      assert GoodSection(s, d[s]);
      SectionLinesPrinted(s, d[s], options[s]);
      TerminateConcat(DocumentLines(d, secs[..n], options), SectionLines(s, d[s], options[s]));
    }
  }

  lemma HeaderPrinted(header: string)
    requires NoNewline(header)
    ensures Terminate(HeaderLines(header)) == PrintHeader(header) && AreLines(HeaderLines(header))
  {
    if header != "" {
      var l := "# " + header;
      assert Terminate([l]) == l + "\n";
    }
  }

  lemma {:induction false} PrintedIsTerminated(d: Data, header: string, ord: Order)
    requires Readable(d) && IsOrder(d, ord) && NoNewline(header)
    ensures var ls := HeaderLines(header) + DocumentLines(d, ord.sections, ord.options);
            Print(d, header, ord) == Terminate(ls) && AreLines(ls)
  {
    HeaderPrinted(header);
    DocumentLinesPrinted(d, ord.sections, ord.options);
    TerminateConcat(HeaderLines(header), DocumentLines(d, ord.sections, ord.options));
  }

  /** The lines of the printed text; the last newline leaves an empty line behind it. */
  lemma {:induction false} LinesOfPrinted(d: Data, header: string, ord: Order)
    requires Readable(d) && IsOrder(d, ord) && NoNewline(header)
    ensures Lines(Print(d, header, ord)) ==
            HeaderLines(header) + DocumentLines(d, ord.sections, ord.options) + [""]
  {
    PrintedIsTerminated(d, header, ord);
    LinesOfTerminated(HeaderLines(header) + DocumentLines(d, ord.sections, ord.options));
  }
}
