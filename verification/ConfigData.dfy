/** The nested map behind a configuration file, and what each public operation of the
    configuration package does to it (conf/conf.go, conf/get.go). */
module ConfigData {
  import opened Text
  import opened Wrappers

  /** Options of one section, and sections by name. */
  type Options = map<string, string>
  type Data = map<string, Options>

  const DEFAULT_SECTION := "default"

  /** A configuration as `NewConfigFile` leaves it. */
  const EMPTY: Data := map[DEFAULT_SECTION := map[]]

  datatype GetError = SectionNotFound(section: string) | OptionNotFound(section: string, option: string)

  function AddSection(d: Data, section: string): Data {
    var s := Lower(section);
    if s in d then d else d[s := map[]]
  }

  function AddOption(d: Data, section: string, option: string, value: string): Data {
    var e := AddSection(d, section);
    var s := Lower(section);
    e[s := e[s][Lower(option) := value]]
  }

  function RemoveSection(d: Data, section: string): Data {
    var s := Lower(section);
    if s == DEFAULT_SECTION then d else d - {s}
  }

  function RemoveOption(d: Data, section: string, option: string): Data {
    var s := Lower(section);
    if s in d then d[s := d[s] - {Lower(option)}] else d
  }

  /** Look-ups read the empty section name as the default section. */
  function LookupSection(section: string): string {
    Lower(if section == "" then DEFAULT_SECTION else section)
  }

  predicate HasOption(d: Data, section: string, option: string) {
    var s := LookupSection(section);
    s in d && (Lower(option) in d[s] || (DEFAULT_SECTION in d && Lower(option) in d[DEFAULT_SECTION]))
  }

  /** What every configuration built through the public operations satisfies: the default
      section exists and every section and option key is lower-case. */
  predicate ValidData(d: Data) {
    && DEFAULT_SECTION in d
    && (forall s :: s in d ==> IsLower(s) && forall o :: o in d[s] ==> IsLower(o))
  }

  lemma EmptyIsValid()
    ensures ValidData(EMPTY)
  {
    assert Lower(DEFAULT_SECTION) == DEFAULT_SECTION;
  }

  lemma AddSectionKeepsValid(d: Data, section: string)
    requires ValidData(d)
    ensures ValidData(AddSection(d, section))
  {
    LowerIdempotent(section);
  }

  lemma AddOptionKeepsValid(d: Data, section: string, option: string, value: string)
    requires ValidData(d)
    ensures ValidData(AddOption(d, section, option, value))
  {
    AddSectionKeepsValid(d, section);
    LowerIdempotent(option);
  }

  lemma RemovalsKeepValid(d: Data, section: string, option: string)
    requires ValidData(d)
    ensures ValidData(RemoveSection(d, section)) && ValidData(RemoveOption(d, section, option))
  {
  }

  /** A look-up of section `t` succeeds. */
  predicate Finds(d: Data, t: string) {
    LookupSection(t) in d
  }

  /** What adding and removing a section does to look-ups of any section, itself included. A section
      added under the empty name is never found by that name, which stands for the default one. */
  lemma SectionsFound(d: Data, section: string, t: string)
    ensures Finds(AddSection(d, section), t) <==> Finds(d, t) || LookupSection(t) == Lower(section)
    ensures Finds(RemoveSection(d, section), t) <==>
            Finds(d, t) && (LookupSection(t) == Lower(section) ==> LookupSection(t) == DEFAULT_SECTION)
    ensures LookupSection(t) == Lower(section) <==>
            if t == "" then Lower(section) == DEFAULT_SECTION else Lower(t) == Lower(section)
  {
    LowerExactly(DEFAULT_SECTION);
  }

  // ---------- What updates do to single entries ----------

  /** The value stored under these very keys, if there is one. */
  function At(d: Data, s: string, o: string): Option<string> {
    if s in d && o in d[s] then Some(d[s][o]) else None
  }

  /** Storing changes just the entry at the lower-cased keys, and adds no section but its own. */
  lemma AddOptionAt(d: Data, section: string, option: string, value: string, s: string, o: string)
    ensures var d' := AddOption(d, section, option, value);
            && (s in d' <==> s in d || s == Lower(section))
            && At(d', s, o) == if s == Lower(section) && o == Lower(option) then Some(value) else At(d, s, o)
  {
  }

  /** Removing an option takes just that entry out, and keeps its section even when it was the last. */
  lemma RemoveOptionAt(d: Data, section: string, option: string, s: string, o: string)
    ensures var d' := RemoveOption(d, section, option);
            && (s in d' <==> s in d)
            && At(d', s, o) == if s == Lower(section) && o == Lower(option) then None else At(d, s, o)
  {
  }

  /** Adding a section adds no entry and loses none; removing one takes just its entries out, unless
      it is the default section. */
  lemma SectionsAt(d: Data, section: string, s: string, o: string)
    ensures var d' := AddSection(d, section);
            (s in d' <==> s in d || s == Lower(section)) && At(d', s, o) == At(d, s, o)
    ensures var d' := RemoveSection(d, section);
            var gone := s == Lower(section) && s != "default";
            (s in d' <==> s in d && !gone) && At(d', s, o) == if gone then None else At(d, s, o)
  {
  }

  lemma AddOptionTwice(d: Data, section: string, option: string, v: string, w: string)
    ensures AddOption(AddOption(d, section, option, v), section, option, w) == AddOption(d, section, option, w)
  {
    var s, o := Lower(section), Lower(option);
    var m := AddSection(d, section)[s];
    assert m[o := v][o := w] == m[o := w];
    var e := AddSection(d, section);
    assert e[s := m[o := v]][s := m[o := w]] == e[s := m[o := w]];
  }
}
