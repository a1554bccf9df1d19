/** The `ConfigFile` object itself (conf/conf.go, get.go, read.go and write.go). */
module ConfigFiles {
  import opened Sequences
  import opened Text
  import opened Wrappers
  import opened ConfigData
  import opened ConfigRead
  import opened ConfigShape
  import opened ConfigWrite
  import opened ConfigRoundTrip
  import opened ConfigCount
  import opened ConfigRuns

  /** Tries the comment markers one after another. */
  method StripLine(l: string) returns (r: string)
    ensures r == StripComments(l)
  {
    r := l;
    for k := 0 to |MARKERS|
      invariant CutAll(r, MARKERS[k..]) == CutAll(l, MARKERS)
    {
      assert MARKERS[k..][0] == MARKERS[k] && MARKERS[k..][1..] == MARKERS[k + 1..];
      var i := Index(r, MARKERS[k]);
      if i != -1 {
        r := r[..i];
      }
    }
    StripInAnyOrder(l, MARKERS);
  }

  /** Reads up to and including the next newline; `eof` when there is none. */
  method ReadString(text: string) returns (l: string, eof: bool, rest: string)
    ensures text == l + rest
    ensures eof ==> NoNewline(text) && l == text && rest == ""
    ensures !eof ==> l != "" && l[|l| - 1] == '\n' && Lines(text) == [l[..|l| - 1]] + Lines(rest)
  {
    var i := Index(text, "\n");
    IndexOfNewline(text);
    if i == -1 {
      l, eof, rest := text, true, "";
    } else {
      l, eof, rest := text[..i + 1], false, text[i + 1..];
      LinesAt(text, i);
      assert text[..i + 1][..i] == text[..i];
    }
  }

  class ConfigFile {
    var data: Data

    ghost predicate Valid()
      reads this
    {
      ValidData(data)
    }

    constructor ()
      ensures data == EMPTY && Valid()
    {
      data := EMPTY;
      new;
      EmptyIsValid();
    }

    method AddSection(section: string) returns (added: bool)
      modifies this
      ensures data == ConfigData.AddSection(old(data), section)
      ensures added <==> Lower(section) !in old(data)
      ensures old(Valid()) ==> Valid()
    {
      UpdatesAllKeepValid(section, "", "");
      var s := Lower(section);
      if s in data {
        return false;
      }
      data := data[s := map[]];
      return true;
    }

    /** The default section cannot be removed. */
    method RemoveSection(section: string) returns (removed: bool)
      modifies this
      ensures data == ConfigData.RemoveSection(old(data), section)
      ensures removed <==> Lower(section) in old(data) && Lower(section) != DEFAULT_SECTION
      ensures old(Valid()) ==> Valid()
    {
      UpdatesAllKeepValid(section, "", "");
      var s := Lower(section);
      if s !in data {
        assert data - {s} == data;
        return false;
      }
      if s == DEFAULT_SECTION {
        return false;
      }
      data := data - {s};
      return true;
    }

    method AddOption(section: string, option: string, value: string) returns (inserted: bool)
      modifies this
      ensures data == ConfigData.AddOption(old(data), section, option, value)
      ensures inserted <==> Lower(section) !in old(data) || Lower(option) !in old(data)[Lower(section)]
      ensures old(Valid()) ==> Valid()
    {
      UpdatesAllKeepValid(section, option, value);
      var _ := AddSection(section);
      var s, o := Lower(section), Lower(option);
      inserted := o !in data[s];
      data := data[s := data[s][o := value]];
    }

    method RemoveOption(section: string, option: string) returns (removed: bool)
      modifies this
      ensures data == ConfigData.RemoveOption(old(data), section, option)
      ensures removed <==> Lower(section) in old(data) && Lower(option) in old(data)[Lower(section)]
      ensures old(Valid()) ==> Valid()
    {
      UpdatesAllKeepValid(section, option, "");
      var s, o := Lower(section), Lower(option);
      if s !in data {
        return false;
      }
      removed := o in data[s];
      data := data[s := data[s] - {o}];
    }

    lemma UpdatesAllKeepValid(section: string, option: string, value: string)
      ensures Valid() ==> ValidData(ConfigData.AddSection(data, section))
      ensures Valid() ==> ValidData(ConfigData.AddOption(data, section, option, value))
      ensures Valid() ==> ValidData(ConfigData.RemoveSection(data, section))
      ensures Valid() ==> ValidData(ConfigData.RemoveOption(data, section, option))
    {
      if Valid() {
        AddSectionKeepsValid(data, section);
        AddOptionKeepsValid(data, section, option, value);
        RemovalsKeepValid(data, section, option);
      }
    }

    method GetRawString(section: string, option: string) returns (value: string, err: Option<GetError>)
      ensures var s, o := LookupSection(section), Lower(option);
              && (err.None? <==> s in data && o in data[s])
              && (err.None? ==> value == data[s][o])
              && (err.Some? ==> value == "")
              && (err.Some? ==> err.value == if s in data then OptionNotFound(s, o) else SectionNotFound(s))
    {
      var s, o := LookupSection(section), Lower(option);
      if s in data {
        if o in data[s] {
          return data[s][o], None;
        }
        return "", Some(OptionNotFound(s, o));
      }
      return "", Some(SectionNotFound(s));
    }

    method GetSections() returns (sections: array<string>)
      ensures fresh(sections) && Enumerates(sections[..], data.Keys)
    {
      sections := new string[|data|];
      var todo, i := data.Keys, 0;
      while todo != {}
        invariant todo <= data.Keys && i + |todo| == sections.Length
        invariant Enumerates(sections[..i], data.Keys - todo)
        decreases todo
      {
        var s :| s in todo;
        todo := todo - {s};
        sections[i] := s;
        assert sections[..i + 1] == sections[..i] + [s];
        i := i + 1;
      }
      assert sections[..i] == sections[..];
    }

    /** The options of the default section, then those of the section itself, each filled in at a
        moving index. Every option listed is one that `HasOption` accepts, and conversely. */
    method GetOptions(section: string)
      returns (options: array<string>, err: Option<GetError>, ghost first: seq<string>, ghost second: seq<string>)
      requires Valid()
      ensures var s := LookupSection(section);
              if s !in data then err == Some(SectionNotFound(s))
              else err.None? && options[..] == first + second && Listing(data, section, first, second)
      ensures err.None? ==> ListsOptions(data, section, options[..])
    {
      var s := LookupSection(section);
      first, second := [], [];
      if s !in data {
        options := new string[0];
        return options, Some(SectionNotFound(s)), first, second;
      }
      var n, m := |data[DEFAULT_SECTION]|, |data[s]|;
      options := new string[n + m];
      first := FillFrom(options, 0, data[DEFAULT_SECTION].Keys);
      assert options[..n] == first;
      second := FillFrom(options, n, data[s].Keys);
      assert options[..] == options[..n + m];
      BothPartsListed(data, section, first, second);
      return options, None, first, second;
    }

    method HasSection(section: string) returns (ok: bool)
      ensures ok <==> Finds(data, section)
      ensures Valid() && Lower(section) in {"", DEFAULT_SECTION} ==> ok
    {
      LowerExactly(DEFAULT_SECTION);
      ok := Lower(if section == "" then DEFAULT_SECTION else section) in data;
    }

    /** True for just the options that `GetOptions` lists for the section, in whatever order. */
    method HasOption(section: string, option: string) returns (ok: bool)
      requires Valid()
      ensures ok ==> Finds(data, section)
      ensures forall first, second :: Finds(data, section) && Listing(data, section, first, second) ==>
                (ok <==> Lower(option) in first + second)
    {
      var s, o := LookupSection(section), Lower(option);
      if s !in data {
        return false;
      }
      return o in data[DEFAULT_SECTION] || o in data[s];
    }

    /** Reads line by line. Whether it succeeds or fails, the data and the error are those of the
        fold over the trimmed lines; each round either consumes text or is the last. */
    method Read(text: string) returns (err: Option<ReadError>)
      modifies this
      ensures var out := ScanText(Reader(old(data), DEFAULT_SECTION, ""), text);
              data == out.reader.data && err == out.error
      ensures old(Valid()) ==> Valid()
    {
      if Valid() {
        ScanKeepsValid(Reader(data, DEFAULT_SECTION, ""), Lines(text));
      }
      var section, option := DEFAULT_SECTION, "";
      var rest := text;
      ghost var start := Reader(data, section, option);
      while true
        invariant ScanText(start, text) == ScanText(Reader(data, section, option), rest)
        decreases |rest|
      {
        var l, eof, tail := ReadString(rest);
        ReadRound(Reader(data, section, option), rest, l, eof, tail);
        l := Trim(l);
        rest := tail;
        if eof && l == "" {
          break;
        }
        if l == "" || IsComment(l) {
          continue;
        }
        section, option, err := HandleLine(l, section, option);
        if err.Some? {
          return;
        }
        if eof {
          break;
        }
      }
      return None;
    }

    /** A line that is neither empty nor a comment. */
    method HandleLine(l: string, sec: string, opt: string)
      returns (section: string, option: string, err: Option<ReadError>)
      requires l != "" && !IsComment(l)
      modifies this
      ensures Scan(Reader(data, section, option), err) == Step(Reader(old(data), sec, opt), l)
    {
      section, option, err := sec, opt, None;
      if IsHeader(l) {
        option := "";
        section := Trim(l[1..|l| - 1]);
        var _ := AddSection(section);
      } else if section == "" {
        err := Some(BlankSection(l));
      } else {
        var i := FirstSeparator(l);
        if i > 0 {
          option := Trim(l[..i]);
          var value := StripLine(l[i + 1..]);
          var _ := AddOption(section, option, Trim(value));
        } else if section != "" && option != "" {
          var prev, _ := GetRawString(section, option);
          var value := StripLine(l);
          var _ := AddOption(section, option, prev + "\n" + Trim(value));
        } else {
          err := Some(CouldNotParse(l));
        }
      }
    }

    /** Prints the header line, then the sections and their options in whatever order the maps
        come up. */
    method Write(header: string) returns (text: string)
      ensures exists ord :: IsOrder(data, ord) && text == Print(data, header, ord)
    {
      var first := "";
      if header != "" {
        first := "# " + header + "\n";
      }
      ghost var ord;
      text, ord := WriteSections(data);
      text := first + text;
      assert text == Print(data, header, ord);
    }
  }

  method WriteSections(d: Data) returns (text: string, ghost ord: Order)
    ensures IsOrder(d, ord) && text == PrintSections(d, ord.sections, ord.options)
  {
    var todo := d.Keys;
    text, ord := "", Order([], map[]);
    while todo != {}
      invariant OrderSoFar(d, ord, todo)
      invariant text == PrintSections(d, ord.sections, ord.options)
      decreases todo
    {
      var section :| section in todo;
      var chunk, opts := WriteSection(section, d[section]);
      text := text + chunk;
      PrintedOneMore(d, ord, section, opts);
      OrderOneMore(d, ord, todo, section, opts);
      ord := Extended(ord, section, opts);
      todo := todo - {section};
    }
  }

  /** Fills in the keys from index `from` on, in whatever order they come up. */
  method FillFrom(a: array<string>, from: nat, keys: set<string>) returns (ghost order: seq<string>)
    requires from + |keys| <= a.Length
    modifies a
    ensures Enumerates(order, keys) && |order| == |keys|
    ensures a[..] == old(a[..from]) + order + old(a[from + |keys|..])
  {
    var todo, i := keys, from;
    order := [];
    while todo != {}
      invariant todo <= keys && i + |todo| == from + |keys| && i == from + |order|
      invariant Enumerates(order, keys - todo)
      invariant a[..i] == old(a[..from]) + order
      invariant a[i..] == old(a[i..])
      decreases todo
    {
      var k :| k in todo;
      todo := todo - {k};
      a[i] := k;
      order := order + [k];
      i := i + 1;
      assert a[..i] == a[..i - 1] + [k];
    }
  }

  method WriteSection(section: string, m: Options) returns (chunk: string, ghost opts: seq<string>)
    ensures Enumerates(opts, m.Keys) && chunk == PrintSection(section, m, opts)
  {
    opts := [];
    if section == DEFAULT_SECTION && |m| == 0 {
      return "", opts;
    }
    chunk := "[" + section + "]\n";
    var todo := m.Keys;
    while todo != {}
      invariant todo <= m.Keys && Enumerates(opts, m.Keys - todo)
      invariant chunk == "[" + section + "]\n" + PrintOptions(m, opts)
      decreases todo
    {
      var option :| option in todo;
      todo := todo - {option};
      chunk := chunk + (option + "=" + m[option] + "\n");
      ghost var opts' := opts + [option];
      assert opts'[..|opts|] == opts;
      opts := opts';
    }
    chunk := chunk + "\n";
  }

  lemma {:induction false} SameOptions(d: Data, secs: seq<string>, a: map<string, seq<string>>,
                                           b: map<string, seq<string>>)
    requires Covers(d, secs, a) && forall s :: s in secs ==> s in b && b[s] == a[s]
    ensures PrintSections(d, secs, b) == PrintSections(d, secs, a)
  {
    if secs != [] {
      SameOptions(d, secs[..|secs| - 1], a, b);
    }
  }

  /** The order in which the sections printed so far came up. */
  ghost predicate OrderSoFar(d: Data, ord: Order, todo: set<string>) {
    && Covers(d, ord.sections, ord.options)
    && Distinct(ord.sections)
    && (forall s :: s in d <==> s in ord.sections || s in todo)
    && (forall s :: s in ord.sections ==> s !in todo && Enumerates(ord.options[s], d[s].Keys))
  }

  function Extended(ord: Order, s: string, opts: seq<string>): Order {
    Order(ord.sections + [s], ord.options[s := opts])
  }

  lemma OrderOneMore(d: Data, ord: Order, todo: set<string>, s: string, opts: seq<string>)
    requires OrderSoFar(d, ord, todo) && s in todo && s in d && Enumerates(opts, d[s].Keys)
    ensures OrderSoFar(d, Extended(ord, s, opts), todo - {s})
  {
    assert s !in ord.sections;
  }

  lemma {:induction false} PrintedOneMore(d: Data, ord: Order, s: string, opts: seq<string>)
    requires Covers(d, ord.sections, ord.options) && s in d && s !in ord.sections && forall o :: o in opts ==> o in d[s]
    ensures var ord' := Extended(ord, s, opts);
            && Covers(d, ord'.sections, ord'.options)
            && PrintSections(d, ord'.sections, ord'.options) ==
               PrintSections(d, ord.sections, ord.options) + PrintSection(s, d[s], opts)
  {
    var ord' := Extended(ord, s, opts);
    assert ord'.sections[..|ord.sections|] == ord.sections;
    SameOptions(d, ord.sections, ord.options, ord'.options);
  }

  /** Every option listed is one that `HasOption` accepts, and conversely. */
  ghost predicate ListsOptions(d: Data, section: string, options: seq<string>) {
    forall o :: ConfigData.HasOption(d, section, o) <==> Lower(o) in options
  }

  /** What `GetOptions` may list: the default section's options, then the section's own. */
  ghost predicate Listing(d: Data, section: string, first: seq<string>, second: seq<string>)
    requires DEFAULT_SECTION in d && LookupSection(section) in d
  {
    Enumerates(first, d[DEFAULT_SECTION].Keys) && Enumerates(second, d[LookupSection(section)].Keys)
  }

  lemma BothPartsListed(d: Data, section: string, a: seq<string>, b: seq<string>)
    requires ValidData(d) && LookupSection(section) in d && Listing(d, section, a, b)
    ensures ListsOptions(d, section, a + b)
  {
  }

  /** One round of reading, seen from the fold: the last line, or one of several. */
  lemma ReadLast(r: Reader, text: string)
    requires NoNewline(text)
    ensures var first := Step(r, Trim(text));
            ScanText(r, text) == if first.error.Some? then first else Scan(first.reader, None)
    ensures ScanText(r, "") == Scan(r, None)
  {
    LinesOfLine(text);
    LinesOfLine("");
    ScanBlank(r);
    var first := Step(r, Trim(text));
    if first.error.None? {
      ScanFirst(r, text, []);
      assert [text] + [] == [text];
    }
  }

  lemma {:induction false} ReadOne(r: Reader, text: string, l: string, rest: string)
    requires Lines(text) == [l] + Lines(rest)
    ensures var first := Step(r, Trim(l));
            ScanText(r, text) == if first.error.Some? then first else ScanText(first.reader, rest)
  {
    assert Lines(text)[1..] == Lines(rest);
  }

  lemma {:induction false} ReadRound(r: Reader, text: string, l: string, eof: bool, rest: string)
    requires eof ==> NoNewline(text) && l == text && rest == ""
    requires !eof ==> l != "" && l[|l| - 1] == '\n' && Lines(text) == [l[..|l| - 1]] + Lines(rest)
    ensures var first := Step(r, Trim(l));
            && ScanText(r, text) == (if first.error.Some? then first else ScanText(first.reader, rest))
            && (eof ==> ScanText(first.reader, rest) == Scan(first.reader, None))
  {
    if eof {
      ReadLast(r, text);
      ReadLast(Step(r, Trim(l)).reader, "");
    } else {
      var raw := l[..|l| - 1];
      TrimLineEnd(raw);
      assert l == raw + "\n";
      ReadOne(r, text, raw, rest);
    }
  }

  method ReadConfigBytes(conf: string) returns (c: ConfigFile?, err: Option<ReadError>)
    ensures err == ScanText(START, conf).error && (c == null <==> err.Some?)
    ensures c != null ==> fresh(c) && c.data == ScanText(START, conf).reader.data
  {
    c := new ConfigFile();
    err := c.Read(conf);
    if err.Some? {
      c := null;
    }
  }

  /** Writing a configuration out and reading it into a new object gives an equal configuration
      exactly when it is well-formed. */
  method Reload(c: ConfigFile, header: string) returns (c': ConfigFile?, err: Option<ReadError>)
    requires NoNewline(header)
    ensures (c' != null && c'.data == c.data) <==> WellFormed(c.data)
  {
    var text := c.Write(header);
    ghost var ord :| IsOrder(c.data, ord) && text == Print(c.data, header, ord);
    c', err := ReadConfigBytes(text);
    RoundTrip(c.data, header, ord);
  }
}
