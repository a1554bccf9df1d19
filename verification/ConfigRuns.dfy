/** What holds of a configuration after any sequence of public operations. */
module ConfigRuns {
  import opened Text
  import opened Wrappers
  import opened ConfigData
  import opened ConfigRead
  import opened ConfigShape

  datatype Operation =
    | AddingSection(section: string)
    | RemovingSection(section: string)
    | AddingOption(section: string, option: string, value: string)
    | RemovingOption(section: string, option: string)
    | Reading(text: string)

  function Apply(d: Data, op: Operation): Data {
    match op
    case AddingSection(s) => AddSection(d, s)
    case RemovingSection(s) => RemoveSection(d, s)
    case AddingOption(s, o, v) => AddOption(d, s, o, v)
    case RemovingOption(s, o) => RemoveOption(d, s, o)
    case Reading(text) => ScanText(Reader(d, DEFAULT_SECTION, ""), text).reader.data
  }

  function Run(d: Data, ops: seq<Operation>): Data
    decreases |ops|
  {
    if ops == [] then d else Run(Apply(d, ops[0]), ops[1..])
  }

  lemma StepKeepsValid(r: Reader, l: string)
    requires ValidData(r.data)
    ensures ValidData(Step(r, l).reader.data)
  {
    if IsHeader(l) {
      AddSectionKeepsValid(r.data, Trim(l[1..|l| - 1]));
    } else if FirstSeparator(l) > 0 {
      var i := FirstSeparator(l);
      AddOptionKeepsValid(r.data, r.section, Trim(l[..i]), Clean(l[i + 1..]));
    } else {
      AddOptionKeepsValid(r.data, r.section, r.option, RawValue(r.data, r.section, r.option) + "\n" + Clean(l));
    }
  }

  lemma {:induction false} ScanKeepsValid(r: Reader, ls: seq<string>)
    requires ValidData(r.data)
    ensures ValidData(ScanLines(r, ls).reader.data)
    decreases |ls|
  {
    if ls != [] {
      StepKeepsValid(r, Trim(ls[0]));
      ScanKeepsValid(Step(r, Trim(ls[0])).reader, ls[1..]);
    }
  }

  lemma ApplyKeepsValid(d: Data, op: Operation)
    requires ValidData(d)
    ensures ValidData(Apply(d, op))
  {
    match op {
      case AddingSection(s) => AddSectionKeepsValid(d, s);
      case RemovingSection(s) => RemovalsKeepValid(d, s, "");
      case AddingOption(s, o, v) => AddOptionKeepsValid(d, s, o, v);
      case RemovingOption(s, o) => RemovalsKeepValid(d, s, o);
      case Reading(text) => ScanKeepsValid(Reader(d, DEFAULT_SECTION, ""), Lines(text));
    }
  }

  /** Whatever is added, removed or read, the default section stays and all keys are lower-case. */
  lemma {:induction false} EveryRunIsValid(d: Data, ops: seq<Operation>)
    requires ValidData(d)
    ensures ValidData(Run(d, ops))
    decreases |ops|
  {
    if ops != [] {
      ApplyKeepsValid(d, ops[0]);
      EveryRunIsValid(Apply(d, ops[0]), ops[1..]);
    }
  }

  // ---------- Which value is stored in the end ----------

  /** The operation stores or removes the entry at these very keys. */
  predicate Touches(op: Operation, s: string, o: string) {
    match op
    case AddingOption(section, option, _) => Lower(section) == s && Lower(option) == o
    case RemovingOption(section, option) => Lower(section) == s && Lower(option) == o
    case RemovingSection(section) => Lower(section) == s && s != "default"
    case _ => false
  }

  predicate Stores(op: Operation, s: string, o: string, v: string) {
    op.AddingOption? && Touches(op, s, o) && op.value == v
  }

  predicate UntouchedFrom(ops: seq<Operation>, i: nat, s: string, o: string) {
    forall j :: i <= j < |ops| ==> !Touches(ops[j], s, o)
  }

  /** Some operation stores the value, and no later one touches the entry. */
  predicate LastStores(ops: seq<Operation>, s: string, o: string, v: string) {
    exists i :: 0 <= i < |ops| && Stores(ops[i], s, o, v) && UntouchedFrom(ops, i + 1, s, o)
  }

  lemma ApplyAt(d: Data, op: Operation, s: string, o: string, v: string)
    requires !op.Reading?
    ensures At(Apply(d, op), s, o) == Some(v) <==>
            Stores(op, s, o, v) || (!Touches(op, s, o) && At(d, s, o) == Some(v))
  {
    match op {
      case AddingSection(section) => SectionsAt(d, section, s, o);
      case RemovingSection(section) => SectionsAt(d, section, s, o);
      case AddingOption(section, option, value) => AddOptionAt(d, section, option, value, s, o);
      case RemovingOption(section, option) => RemoveOptionAt(d, section, option, s, o);
      case _ =>
    }
  }

  lemma LastStoresStep(ops: seq<Operation>, s: string, o: string, v: string)
    requires ops != []
    ensures LastStores(ops, s, o, v) <==>
            LastStores(ops[1..], s, o, v) || (Stores(ops[0], s, o, v) && UntouchedFrom(ops[1..], 0, s, o))
    ensures UntouchedFrom(ops, 0, s, o) <==> !Touches(ops[0], s, o) && UntouchedFrom(ops[1..], 0, s, o)
  {
    var rest := ops[1..];
    assert forall j :: 0 <= j < |rest| ==> rest[j] == ops[j + 1];
    assert forall j :: 1 <= j < |ops| ==> ops[j] == rest[j - 1];
    if i :| 0 <= i < |rest| && Stores(rest[i], s, o, v) && UntouchedFrom(rest, i + 1, s, o) {
      assert Stores(ops[i + 1], s, o, v) && UntouchedFrom(ops, i + 2, s, o);
    }
    if i :| 0 < i < |ops| && Stores(ops[i], s, o, v) && UntouchedFrom(ops, i + 1, s, o) {
      assert Stores(rest[i - 1], s, o, v) && UntouchedFrom(rest, i, s, o);
    }
  }

  /** After any series of updates an entry holds the value that was stored last, or the old one if
      nothing touched it, and is absent otherwise. */
  lemma {:induction false} LastWriteWins(d: Data, ops: seq<Operation>, s: string, o: string, v: string)
    requires forall i :: 0 <= i < |ops| ==> !ops[i].Reading?
    ensures At(Run(d, ops), s, o) == Some(v) <==>
            LastStores(ops, s, o, v) || (UntouchedFrom(ops, 0, s, o) && At(d, s, o) == Some(v))
    decreases |ops|
  {
    if ops != [] {
      LastWriteWins(Apply(d, ops[0]), ops[1..], s, o, v);
      ApplyAt(d, ops[0], s, o, v);
      LastStoresStep(ops, s, o, v);
    }
  }

  // ---------- What stays fit for a round trip ----------

  lemma StoringKeepsWellFormed(d: Data, s: string, m: Options, o: string, value: string)
    requires WellFormed(d) && m == (if s in d then d[s] else map[])
    requires s != "" && GoodSectionName(s) && GoodOptionName(o) && GoodValue(value) && NoHeaderIn(o, value)
    ensures WellFormed(d[s := m[o := value]])
  {
    if s in d {
      assert GoodSection(s, d[s]);
    }
    assert GoodSection(s, m[o := value]);
  }

  predicate Printable(section: string, option: string, value: string) {
    && section != "" && GoodSectionName(section) && GoodOptionName(option)
    && GoodValue(value) && NoHeaderIn(option, value)
  }

  lemma StoredIsPrintable(d: Data, s: string, o: string)
    requires WellFormed(d) && s in d && o in d[s]
    ensures Printable(s, o, d[s][o])
  {
    assert GoodSection(s, d[s]);
  }

  lemma AddOptionStores(d: Data, section: string, option: string, value: string)
    ensures var s := Lower(section);
            AddOption(d, section, option, value) == d[s := AddSection(d, section)[s][Lower(option) := value]]
  {
  }

  /** Adding an option to a configuration that survives a round trip leaves it so exactly when
      the new names and the new value are printable. */
  lemma AddOptionKeepsWellFormed(d: Data, section: string, option: string, value: string)
    requires WellFormed(d)
    ensures WellFormed(AddOption(d, section, option, value)) <==> Printable(Lower(section), Lower(option), value)
  {
    var s, o := Lower(section), Lower(option);
    var m := AddSection(d, section)[s];
    AddOptionStores(d, section, option, value);
    if WellFormed(d[s := m[o := value]]) {
      StoredIsPrintable(d[s := m[o := value]], s, o);
    }
    if Printable(s, o, value) {
      StoringKeepsWellFormed(d, s, m, o, value);
    }
  }
}
