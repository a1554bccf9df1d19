/** When a configuration that was itself read from text survives another round. */
module ConfigReread {
  import opened Text
  import opened Wrappers
  import opened ConfigData
  import opened ConfigRead
  import opened ConfigShape
  import opened ConfigWrite
  import opened ConfigRoundTrip
  import opened ConfigCount

  predicate OpensBracket(l: string) {
    l != "" && l[0] == '['
  }

  /** Every line that starts with `[` is a header. */
  predicate BracketsClose(text: string) {
    forall l :: l in Lines(text) ==> OpensBracket(Trim(l)) ==> IsHeader(Trim(l))
  }

  predicate Unbracketed(o: string, v: string) {
    !OpensBracket(o) && forall k :: 1 <= k < |Lines(v)| ==> !OpensBracket(Lines(v)[k])
  }

  /** No option and no later piece of a value starts with `[`. */
  predicate UnbracketedData(d: Data) {
    forall s :: s in d ==> forall o :: o in d[s] ==> Unbracketed(o, d[s][o])
  }

  lemma UnbracketedHasNoHeader(d: Data)
    requires Readable(d) && UnbracketedData(d)
    ensures NoHeaderLines(d)
  {
    forall s, o | s in d && o in d[s]
      ensures NoHeaderIn(o, d[s][o])
    {
      assert GoodSection(s, d[s]) && GoodOptionName(o) && Unbracketed(o, d[s][o]);
      assert (o + "=" + Lines(d[s][o])[0])[0] == o[0];
    }
  }

  lemma StoreUnbracketed(d: Data, section: string, option: string, v: string)
    requires UnbracketedData(d) && Unbracketed(Lower(option), v)
    ensures UnbracketedData(AddOption(d, section, option, v))
  {
  }

  lemma EntryKeepsUnbracketed(r: Reader, l: string)
    requires UnbracketedData(r.data) && NoNewline(l) && Trimmed(l) && !OpensBracket(l) && FirstSeparator(l) > 0
    ensures var i := FirstSeparator(l);
            UnbracketedData(AddOption(r.data, r.section, Trim(l[..i]), Clean(l[i + 1..])))
  {
    var i := FirstSeparator(l);
    TrimPrefix(l[..i]);
    EntryValue(l[i + 1..]);
    CleanKeepsNoNewline(l[i + 1..]);
    LinesOfLine(Clean(l[i + 1..]));
    StoreUnbracketed(r.data, r.section, Trim(l[..i]), Clean(l[i + 1..]));
  }

  lemma LongerValueUnbracketed(o: string, v: string, p: string)
    requires Unbracketed(o, v) && !OpensBracket(p) && NoNewline(p)
    ensures Unbracketed(o, v + "\n" + p)
  {
    LinesConcat(v, p);
    LinesOfLine(p);
  }

  lemma ContinuationKeepsUnbracketed(r: Reader, l: string)
    requires GoodReader(r) && UnbracketedData(r.data) && r.option != ""
    requires l != "" && NoNewline(l) && Trimmed(l) && !OpensBracket(l)
    ensures UnbracketedData(AddOption(r.data, r.section, r.option,
                                      RawValue(r.data, r.section, r.option) + "\n" + Clean(l)))
  {
    var v := r.data[Lower(r.section)][Lower(r.option)];
    CleanKeepsNoNewline(l);
    CleanLine(l);
    LongerValueUnbracketed(Lower(r.option), v, Clean(l));
    StoreUnbracketed(r.data, r.section, r.option, v + "\n" + Clean(l));
  }

  lemma StepKeepsUnbracketed(r: Reader, l: string)
    requires GoodReader(r) && UnbracketedData(r.data) && NoNewline(l) && Trimmed(l)
    requires OpensBracket(l) ==> IsHeader(l)
    ensures UnbracketedData(Step(r, l).reader.data)
  {
    if l == "" || IsComment(l) || IsHeader(l) || r.section == "" {
    } else if FirstSeparator(l) > 0 {
      EntryKeepsUnbracketed(r, l);
    } else if r.option != "" {
      ContinuationKeepsUnbracketed(r, l);
    }
  }

  lemma {:induction false} ScanKeepsUnbracketed(r: Reader, ls: seq<string>)
    requires GoodReader(r) && UnbracketedData(r.data) && AreLines(ls)
    requires forall l :: l in ls ==> OpensBracket(Trim(l)) ==> IsHeader(Trim(l))
    ensures UnbracketedData(ScanLines(r, ls).reader.data)
    decreases |ls|
  {
    if ls != [] {
      var l := Trim(ls[0]);
      TrimKeepsNoNewline(ls[0]);
      StepKeepsUnbracketed(r, l);
      StepKeepsGood(r, l);
      var first := Step(r, l);
      if first.error.None? {
        ScanKeepsUnbracketed(first.reader, ls[1..]);
      }
    }
  }

  /** What was read survives another round exactly when none of its printed lines is a header. */
  lemma RereadExactly(text: string, header: string, ord: Order)
    requires IsOrder(ScanText(START, text).reader.data, ord) && NoNewline(header)
    ensures var d := ScanText(START, text).reader.data;
            ReadsBack(Print(d, header, ord), d) <==> NoHeaderLines(d)
  {
    ReadingYieldsReadable(text);
    RoundTrip(ScanText(START, text).reader.data, header, ord);
  }

  /** Text in which every line starting with `[` also ends with `]` always does. */
  lemma RereadSafely(text: string, header: string, ord: Order)
    requires IsOrder(ScanText(START, text).reader.data, ord) && NoNewline(header)
    requires BracketsClose(text)
    ensures WellFormed(ScanText(START, text).reader.data)
    ensures ReadsBack(Print(ScanText(START, text).reader.data, header, ord), ScanText(START, text).reader.data)
  {
    StartIsGood();
    ScanKeepsUnbracketed(START, Lines(text));
    ReadingYieldsReadable(text);
    UnbracketedHasNoHeader(ScanText(START, text).reader.data);
    RoundTrip(ScanText(START, text).reader.data, header, ord);
  }

  const BRACKET_LINE := "[x] #c"

  lemma BracketLineStep(r: Reader)
    requires r.section != "" && r.option != ""
    ensures Step(r, Trim(BRACKET_LINE)) ==
            (var value := RawValue(r.data, r.section, r.option) + "\n" + "[x]";
             Scan(r.(data := AddOption(r.data, r.section, r.option, value)), None))
  {
    var l := BRACKET_LINE;
    TrimTrimmed(l);
    assert CommentAt(l, 3) && !CommentAt(l, 0) && !CommentAt(l, 1) && !CommentAt(l, 2);
    assert CommentStart(l) == 3;
    assert StripComments(l) == "[x]";
    TrimTrimmed("[x]");
    assert FirstSeparator(l) == -1;
  }

  const BRACKET_TEXT := "a=b\n[x] #c"

  const BRACKET_DATA: Data := map[DEFAULT_SECTION := map["a" := "b\n[x]"]]

  lemma BracketTextLines()
    ensures Lines(BRACKET_TEXT) == ["a=b", BRACKET_LINE]
  {
    LinesAfterNewline("a=b", BRACKET_LINE);
    LinesOfLine(BRACKET_LINE);
    assert "a=b" + "\n" + BRACKET_LINE == BRACKET_TEXT;
  }

  lemma FirstStored()
    ensures AddOption(EMPTY, DEFAULT_SECTION, "a", "b") == map[DEFAULT_SECTION := map["a" := "b"]]
  {
    LowerExactly(DEFAULT_SECTION);
    LowerExactly("a");
  }

  lemma FirstEntry()
    ensures Step(START, Trim("a=b")) ==
            Scan(Reader(map[DEFAULT_SECTION := map["a" := "b"]], DEFAULT_SECTION, "a"), None)
  {
    FirstStored();
    assert "a" + "=" + "b" == "a=b";
    ReadEntryLine(START, "a", "b");
  }

  lemma BracketStored()
    ensures var d: Data := map[DEFAULT_SECTION := map["a" := "b"]];
            AddOption(d, DEFAULT_SECTION, "a", RawValue(d, DEFAULT_SECTION, "a") + "\n" + "[x]") == BRACKET_DATA
  {
    var d: Data := map[DEFAULT_SECTION := map["a" := "b"]];
    assert Lower(DEFAULT_SECTION) == DEFAULT_SECTION && Lower("a") == "a";
    assert RawValue(d, DEFAULT_SECTION, "a") + "\n" + "[x]" == "b\n[x]";
    assert EMPTY[DEFAULT_SECTION := map["a" := "b"]] == d;
    assert map["a" := "b"]["a" := "b\n[x]"] == map["a" := "b\n[x]"];
    assert "b" + "\n" + "[x]" == "b\n[x]";
    AddStoredOption(EMPTY, DEFAULT_SECTION, map["a" := "b"], "a", "b\n[x]");
  }

  lemma BracketEntry()
    ensures ScanText(START, BRACKET_TEXT).reader.data == BRACKET_DATA
  {
    var r1 := Reader(map[DEFAULT_SECTION := map["a" := "b"]], DEFAULT_SECTION, "a");
    BracketTextLines();
    FirstEntry();
    ScanFirst(START, "a=b", [BRACKET_LINE]);
    BracketLineStep(r1);
    BracketStored();
    var r2 := Reader(BRACKET_DATA, DEFAULT_SECTION, "a");
    ScanFirst(r1, BRACKET_LINE, []);
  }

  lemma BracketPieces()
    ensures Lines("b\n[x]") == ["b", "[x]"]
  {
    LinesAfterNewline("b", "[x]");
    LinesOfLine("[x]");
    assert "b" + "\n" + "[x]" == "b\n[x]";
  }

  lemma BracketDataIsIllFormed()
    ensures !NoHeaderLines(BRACKET_DATA)
  {
    var v := "b\n[x]";
    BracketPieces();
    assert IsHeader(Lines(v)[1]);
    assert !NoHeaderIn("a", v);
    assert DEFAULT_SECTION in BRACKET_DATA && "a" in BRACKET_DATA[DEFAULT_SECTION];
    assert BRACKET_DATA[DEFAULT_SECTION]["a"] == "b\n[x]";
  }

  /** The condition on brackets is needed: after an option, the line `[x] #c` is a continuation
      whose comment hides the missing bracket, and the stored piece would be read as a header. */
  lemma BracketLineLost()
    ensures ScanText(START, BRACKET_TEXT).reader.data == BRACKET_DATA && !WellFormed(BRACKET_DATA)
  {
    BracketEntry();
    BracketDataIsIllFormed();
  }
}
