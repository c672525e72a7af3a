/** The rules of a configuration file in plain terms, line by line and with every name, limit and
    default written out, and that the loader follows them: it refuses whatever breaks one, and reads
    what the rules say. */
module ConfigRules {
  import opened ConfigText
  import opened ConfigReadings
  import opened ConfigLoaders

  // Lines.

  predicate IsHeader(text: string) {
    text != "" && text[0] == '[' && text[|text| - 1] == ']'
  }

  /** The name between the brackets. */
  function NameIn(text: string): string
    requires IsHeader(text)
  {
    Trimmed(text[1..|text| - 1])
  }

  predicate IsEntry(text: string) {
    text != "" && !IsHeader(text) && '=' in text
  }

  /** What stands before the first '=', in lower case, and what stands behind it. */
  function KeyIn(text: string): string
    requires IsEntry(text)
  {
    FoundBefore(text);
    Lower(Trimmed(text[..FindFirst(text, {'='})]))
  }

  function ValueIn(text: string): string
    requires IsEntry(text)
  {
    FoundBefore(text);
    Trimmed(text[FindFirst(text, {'='}) + 1..])
  }

  lemma FoundBefore(text: string)
    ensures FindFirst(text, {'='}) < |text| <==> '=' in text
  {
  }

  // Sections and what may stand in them.

  predicate IsBackend(name: string) {
    |name| >= 8 && Lower(name)[..8] == "backend " && Trimmed(name[8..]) != ""
  }

  predicate Known(name: string) {
    Lower(name) == "server" || Lower(name) == "health_check" || IsBackend(name)
  }

  predicate Between(value: string, minimum: int, maximum: int) {
    Integer(value).Some? && minimum <= Integer(value).value <= maximum
  }

  predicate ServerRule(key: string, value: string) {
    || key == "listen_host"
    || (key == "listen_port" && Between(value, 1, 65535))
    || (key == "workers" && Between(value, 1, 128))
    || (key == "backlog" && Between(value, 16, 65535))
    || (key == "max_events" && Between(value, 16, 65536))
    || (key == "buffer_size" && Between(value, 4096, 16777216))
    || (key == "connect_timeout_ms" && Between(value, 50, 60000))
    || (key == "idle_timeout_seconds" && Between(value, 1, 86400))
    || (key == "stats_interval_seconds" && Between(value, 0, 3600))
    || key == "log_level"
  }

  predicate HealthRule(key: string, value: string) {
    || (key == "interval_ms" && Between(value, 200, 600000))
    || (key == "timeout_ms" && Between(value, 50, 60000))
    || (key == "failure_threshold" && Between(value, 1, 100))
    || (key == "success_threshold" && Between(value, 1, 100))
  }

  predicate BackendRule(key: string, value: string) {
    || key == "host"
    || (key == "port" && Between(value, 1, 65535))
    || (key == "weight" && Between(value, 1, 1000))
  }

  predicate EntryRule(section: string, key: string, value: string) {
    && key != "" && value != ""
    && if Lower(section) == "server" then ServerRule(key, value)
       else if Lower(section) == "health_check" then HealthRule(key, value)
       else IsBackend(section) && BackendRule(key, value)
  }

  // Files.

  /** The section that the next line would stand in: the last header so far. */
  function Under(lines: seq<string>): Option<string> {
    if lines == [] then None
    else
      var text := Content(lines[|lines| - 1]);
      if IsHeader(text) then Some(NameIn(text)) else Under(lines[..|lines| - 1])
  }

  /** The last value given for a key since the last header. */
  function GivenHere(lines: seq<string>, key: string): Option<string> {
    if lines == [] then None
    else
      var text := Content(lines[|lines| - 1]);
      if IsHeader(text) then None
      else if IsEntry(text) && KeyIn(text) == key then Some(ValueIn(text))
      else GivenHere(lines[..|lines| - 1], key)
  }

  /** The last backend still lacks its host or its port. */
  predicate Unfinished(lines: seq<string>) {
    && Under(lines).Some? && IsBackend(Under(lines).value)
    && (GivenHere(lines, "host").None? || GivenHere(lines, "port").None?)
  }

  /** What may follow the lines so far: nothing but a comment, a header of one of the three kinds that
      leaves no backend unfinished, or an entry that its section knows. */
  predicate LineRule(before: seq<string>, line: string) {
    var text := Content(line);
    if text == "" then true
    else if IsHeader(text) then Known(NameIn(text)) && !Unfinished(before)
    else IsEntry(text) && Under(before).Some? && EntryRule(Under(before).value, KeyIn(text), ValueIn(text))
  }

  predicate Lawful(lines: seq<string>) {
    forall n | 0 <= n < |lines| :: LineRule(lines[..n], lines[n])
  }

  // The reading agrees with the rules.

  /** What the last section of the reading says about the lines so far. */
  predicate InStep(lines: seq<string>, last: Section) {
    match Under(lines)
    case None => last.kind.Nowhere?
    case Some(name) =>
      && SectionNamed(name) == Header(last.kind)
      && GivenHere(lines, "host") == LastField(last.pairs, Host)
      && GivenHere(lines, "port") == LastField(last.pairs, Port)
      && GivenHere(lines, "weight") == LastField(last.pairs, Weight)
  }

  /** An item is a line taken apart. */
  lemma ItemIs(line: string)
    ensures
      var text := Content(line);
      ItemOf(line) ==
        if text == "" then Nothing
        else if IsHeader(text) then SectionNamed(NameIn(text))
        else if IsEntry(text) && KeyIn(text) != "" && ValueIn(text) != "" then Entry(Pair(KeyIn(text), ValueIn(text)))
        else Bad
  {
    hide Content, Trimmed, Lower, SectionNamed, FindFirst;
    FoundBefore(Content(line));
  }

  lemma KindIs(name: string)
    ensures
      var item := SectionNamed(name);
      if Lower(name) == "server" then item == Header(Server)
      else if Lower(name) == "health_check" then item == Header(Health)
      else if IsBackend(name) then item == Header(Backend(Trimmed(name[8..])))
      else item == Bad
    ensures IsBackend(name) ==> Lower(name) != "server" && Lower(name) != "health_check"
  {
    hide Trimmed;
    if IsBackend(name) {
      assert Lower(name)[..8][0] == 'b';
    }
  }

  lemma IsBetween(value: string, minimum: int, maximum: int)
    requires LONG_MIN <= minimum && maximum <= LONG_MAX
    ensures InRange(Integer(value), minimum, maximum).Some? <==> Between(value, minimum, maximum)
  {
  }

  lemma NumbersAreBetween(s: Setting, value: string)
    ensures s.ListenHost? || s.LogLevel? ==> Meaning(s, value).Some?
    ensures !s.ListenHost? && !s.LogLevel? ==> (Meaning(s, value).Some? <==> Between(value, Limits(s).0, Limits(s).1))
  {
    hide Integer;
    IsBetween(value, Limits(s).0, Limits(s).1);
  }

  lemma ServerPairFits(pair: Pair)
    ensures PairFits(Server, pair) <==> ServerRule(pair.key, pair.value)
  {
    hide Meaning, Between;
    forall s: Setting
      ensures s.ListenHost? || s.LogLevel? ==> Meaning(s, pair.value).Some?
      ensures !s.ListenHost? && !s.LogLevel? ==>
                (Meaning(s, pair.value).Some? <==> Between(pair.value, Limits(s).0, Limits(s).1)) {
      NumbersAreBetween(s, pair.value);
    }
  }

  lemma HealthPairFits(pair: Pair)
    ensures PairFits(Health, pair) <==> HealthRule(pair.key, pair.value)
  {
    hide Meaning, Between;
    NumbersAreBetween(CheckInterval, pair.value);
    NumbersAreBetween(CheckTimeout, pair.value);
    NumbersAreBetween(FailureThreshold, pair.value);
    NumbersAreBetween(SuccessThreshold, pair.value);
  }

  lemma BackendPairFits(name: string, pair: Pair)
    ensures PairFits(Backend(name), pair) <==> BackendRule(pair.key, pair.value)
  {
    hide Integer;
    IsBetween(pair.value, 1, 65535);
    IsBetween(pair.value, 1, 1000);
  }

  /** An entry fits the section of the reading exactly if the rules of its section allow it. */
  lemma EntryFits(name: string, kind: Kind, pair: Pair)
    requires SectionNamed(name) == Header(kind) && pair.key != "" && pair.value != ""
    ensures PairFits(kind, pair) <==> EntryRule(name, pair.key, pair.value)
  {
    hide PairFits, ServerRule, HealthRule, BackendRule, SectionNamed, Lower, IsBackend, Trimmed;
    KindIs(name);
    ServerPairFits(pair);
    HealthPairFits(pair);
    if kind.Backend? {
      BackendPairFits(kind.name, pair);
    }
  }

  lemma UnderSnoc(lines: seq<string>, line: string, key: string)
    ensures
      var text := Content(line);
      && Under(lines + [line]) == (if IsHeader(text) then Some(NameIn(text)) else Under(lines))
      && GivenHere(lines + [line], key) ==
         (if IsHeader(text) then None
          else if IsEntry(text) && KeyIn(text) == key then Some(ValueIn(text))
          else GivenHere(lines, key))
  {
    assert (lines + [line])[..|lines|] == lines;
    hide Content, IsHeader, IsEntry, KeyIn, ValueIn, NameIn;
  }

  lemma FieldSnoc(pairs: seq<Pair>, pair: Pair, f: Field)
    ensures LastField(pairs + [pair], f) == if BackendField(pair.key) == Some(f) then Some(pair.value)
                                            else LastField(pairs, f)
  {
    assert (pairs + [pair])[..|pairs|] == pairs;
  }

  function Last(lines: seq<string>): Section {
    Sections(lines)[|Sections(lines)| - 1]
  }

  lemma LastSnoc(lines: seq<string>, line: string)
    ensures Last(lines + [line]) ==
            match ItemOf(line)
            case Header(kind) => Section(kind, [])
            case Entry(pair) => Section(Last(lines).kind, Last(lines).pairs + [pair])
            case _ => Last(lines)
  {
    hide ItemOf, Sections;
    SectionsGrow(lines, line);
  }

  lemma KeyFields(key: string)
    ensures BackendField(key) == Some(Host) <==> key == "host"
    ensures BackendField(key) == Some(Port) <==> key == "port"
    ensures BackendField(key) == Some(Weight) <==> key == "weight"
  {
    assert "host"[0] == 'h' && "port"[0] == 'p' && "weight"[0] == 'w';
  }

  lemma NothingInEmptySections()
    ensures forall f :: LastField([], f) == None
    ensures forall pair :: !PairFits(Nowhere, pair)
  {
  }

  lemma KnownIs(name: string)
    ensures Known(name) <==> SectionNamed(name) != Bad
    ensures SectionNamed(name).Header? || SectionNamed(name).Bad?
  {
    hide Trimmed, Lower;
    KindIs(name);
  }

  /** A line of a file that has been lawful so far is readable exactly if it keeps to the rules, and
      what has been read then still is what the lines say. */
  lemma LineInStep(lines: seq<string>, line: string)
    requires InStep(lines, Last(lines))
    ensures ItemFits(Last(lines), ItemOf(line)) <==> LineRule(lines, line)
    ensures ItemOf(line) != Bad && LineRule(lines, line) ==> InStep(lines + [line], Last(lines + [line]))
  {
    hide Content, Lower, Trimmed, SectionNamed, LastField, PairFits, BackendField, IsBackend, EntryRule, Under;
    hide GivenHere, ItemOf, KeyIn, ValueIn, NameIn, Last, Known;
    NothingInEmptySections();
    var text := Content(line);
    ItemIs(line);
    LastSnoc(lines, line);
    UnderSnoc(lines, line, "host");
    UnderSnoc(lines, line, "port");
    UnderSnoc(lines, line, "weight");
    if Under(lines).Some? {
      KindIs(Under(lines).value);
    }
    if IsHeader(text) {
      KindIs(NameIn(text));
      assert Known(NameIn(text)) <==> SectionNamed(NameIn(text)) != Bad by {
        KnownIs(NameIn(text));
      }
    } else if IsEntry(text) && KeyIn(text) != "" && ValueIn(text) != "" {
      var pair := Pair(KeyIn(text), ValueIn(text));
      KeyFields(pair.key);
      FieldSnoc(Last(lines).pairs, pair, Host);
      FieldSnoc(Last(lines).pairs, pair, Port);
      FieldSnoc(Last(lines).pairs, pair, Weight);
      if Under(lines).Some? {
        EntryFits(Under(lines).value, Last(lines).kind, pair);
      }
    } else if IsEntry(text) && Under(lines).Some? {
      EntryNeedsBoth(Under(lines).value, KeyIn(text), ValueIn(text));
    }
  }

  lemma EntryNeedsBoth(section: string, key: string, value: string)
    ensures EntryRule(section, key, value) ==> key != "" && value != ""
  {
  }

  lemma LawfulSnoc(lines: seq<string>, line: string)
    ensures Lawful(lines + [line]) <==> Lawful(lines) && LineRule(lines, line)
  {
    hide LineRule;
    var all := lines + [line];
    assert all[..|lines|] == lines && all[|lines|] == line;
    assert forall n | 0 <= n < |lines| :: all[..n] == lines[..n] && all[n] == lines[n];
    if Lawful(all) {
      forall n | 0 <= n < |lines| ensures LineRule(lines[..n], lines[n]) {
        assert LineRule(all[..n], all[n]);
      }
      assert LineRule(all[..|lines|], all[|lines|]);
    }
  }

  /** A file is readable exactly if every line keeps to the rules. */
  lemma {:induction false} ReadableIffLawful(lines: seq<string>)
    ensures Readable(lines) <==> Lawful(lines)
    ensures Lawful(lines) ==> InStep(lines, Last(lines))
  {
    hide Readable, Lawful, InStep, LineRule, ItemFits, ItemOf, Last;
    if lines == [] {
      Beginning();
      NothingYet();
    } else {
      var init, line := lines[..|lines| - 1], lines[|lines| - 1];
      assert init + [line] == lines;
      ReadableIffLawful(init);
      LawfulSnoc(init, line);
      if Readable(init) {
        LineIsReadable(init, line);
        assert Last(init) == Sections(init)[|Sections(init)| - 1] by {
          LastIs(init);
        }
        LineInStep(init, line);
        if ItemFits(Last(init), ItemOf(line)) {
          NotBad(Last(init), ItemOf(line));
        }
      } else if Readable(lines) {
        ShorterIsReadable(init, line);
      }
    }
  }

  lemma NothingYet()
    ensures Lawful([]) && InStep([], Last([]))
  {
  }

  lemma LastIs(lines: seq<string>)
    ensures Last(lines) == Sections(lines)[|Sections(lines)| - 1]
  {
  }

  lemma NotBad(last: Section, item: Item)
    requires ItemFits(last, item)
    ensures item != Bad
  {
  }

  // Settings: the last value given counts, in whatever section of that name, else the default.

  function LastGiven(lines: seq<string>, section: string, key: string): Option<string> {
    if lines == [] then None
    else
      var before, text := lines[..|lines| - 1], Content(lines[|lines| - 1]);
      if IsEntry(text) && KeyIn(text) == key && Under(before).Some? && Lower(Under(before).value) == section
      then Some(ValueIn(text))
      else LastGiven(before, section, key)
  }

  function Figure(given: Option<string>, otherwise: int): int {
    if given.None? then otherwise else OrElse(Integer(given.value), otherwise)
  }

  function Words(given: Option<string>, otherwise: string): string {
    if given.None? then otherwise else given.value
  }

  function Place(s: Setting): (string, string) {
    match s
    case ListenHost => ("server", "listen_host")
    case ListenPort => ("server", "listen_port")
    case Workers => ("server", "workers")
    case Backlog => ("server", "backlog")
    case MaxEvents => ("server", "max_events")
    case BufferSize => ("server", "buffer_size")
    case ConnectTimeout => ("server", "connect_timeout_ms")
    case IdleTimeout => ("server", "idle_timeout_seconds")
    case StatsInterval => ("server", "stats_interval_seconds")
    case LogLevel => ("server", "log_level")
    case CheckInterval => ("health_check", "interval_ms")
    case CheckTimeout => ("health_check", "timeout_ms")
    case FailureThreshold => ("health_check", "failure_threshold")
    case SuccessThreshold => ("health_check", "success_threshold")
  }

  lemma ServerPlace(key: string, s: Setting)
    ensures ServerSetting(key) == Some(s) <==> Place(s) == ("server", key)
  {
    if ServerSetting(key) == Some(s) {
      assert Place(s).1 == key;
    }
    assert "server"[0] == 's' && "health_check"[0] == 'h';
  }

  lemma HealthPlace(key: string, s: Setting)
    ensures HealthSetting(key) == Some(s) <==> Place(s) == ("health_check", key)
  {
    assert "server"[0] == 's' && "health_check"[0] == 'h';
  }

  /** What an item does to a setting. */
  lemma EffectiveSnoc(sections: seq<Section>, item: Item, s: Setting)
    requires sections != []
    ensures
      var last := sections[|sections| - 1];
      Effective(Extended(sections, item), s) ==
        if item.Entry? && SettingOf(last.kind, item.pair.key) == Some(s) && Meaning(s, item.pair.value).Some?
        then Meaning(s, item.pair.value).value
        else if item.Entry? && SettingOf(last.kind, item.pair.key) == Some(s)
        then Effective(sections[..|sections| - 1], s)
        else Effective(sections, s)
  {
    hide Meaning, ValueAt, SettingOf;
    var longer, last := Extended(sections, item), |sections| - 1;
    match item
    case Header(kind) => assert longer[..|longer| - 1] == sections;
    case Entry(pair) =>
      assert longer[..last] == sections[..last];
      assert longer[last].pairs[..|longer[last].pairs| - 1] == sections[last].pairs;
    case _ =>
  }

  lemma GivenSnoc(lines: seq<string>, line: string, section: string, key: string)
    ensures
      var text := Content(line);
      LastGiven(lines + [line], section, key) ==
        if IsEntry(text) && KeyIn(text) == key && Under(lines).Some? && Lower(Under(lines).value) == section
        then Some(ValueIn(text))
        else LastGiven(lines, section, key)
  {
    assert (lines + [line])[..|lines|] == lines;
    hide Content, IsEntry, KeyIn, ValueIn, Under, Lower;
  }

  /** Where a setting is set: in the section of its name, by the key of its name. */
  lemma SettingPlaced(name: string, kind: Kind, key: string, s: Setting)
    requires SectionNamed(name) == Header(kind)
    ensures SettingOf(kind, key) == Some(s) <==> Place(s) == (Lower(name), key)
  {
    hide ServerSetting, HealthSetting, SectionNamed, Lower, IsBackend, Trimmed;
    KindIs(name);
    ServerPlace(key, s);
    HealthPlace(key, s);
  }

  lemma FitsMeans(kind: Kind, pair: Pair, s: Setting)
    requires PairFits(kind, pair) && SettingOf(kind, pair.key) == Some(s)
    ensures Meaning(s, pair.value).Some?
  {
    hide Meaning;
  }

  ghost predicate SetAsGiven(lines: seq<string>, s: Setting) {
    match LastGiven(lines, Place(s).0, Place(s).1)
    case None => Effective(Sections(lines), s) == ValueAt(DEFAULTS, s)
    case Some(value) => Meaning(s, value) == Some(Effective(Sections(lines), s))
  }

  lemma {:induction false} SettingsAreGiven(lines: seq<string>, s: Setting)
    requires Lawful(lines)
    ensures SetAsGiven(lines, s)
  {
    hide Lawful, LineRule, Effective, Meaning, SettingOf, Content, Place, ItemOf, InStep, LastGiven, ValueAt;
    if lines == [] {
      NothingGiven(s);
    } else {
      var init, line := lines[..|lines| - 1], lines[|lines| - 1];
      assert init + [line] == lines;
      LawfulSnoc(init, line);
      SettingsAreGiven(init, s);
      LineSets(init, line, s);
    }
  }

  lemma NothingGiven(s: Setting)
    ensures SetAsGiven([], s)
  {
    hide Meaning, ValueAt;
    assert Sections([]) == [Section(Nowhere, [])];
    assert Effective(Sections([])[..0], s) == ValueAt(DEFAULTS, s);
  }

  lemma LineSets(lines: seq<string>, line: string, s: Setting)
    requires Lawful(lines) && LineRule(lines, line) && SetAsGiven(lines, s)
    ensures SetAsGiven(lines + [line], s)
  {
    hide Lawful, LineRule, Effective, Meaning, SettingOf, Content, Place, ItemOf, LastGiven, ValueAt, KeyIn, ValueIn;
    hide Under, GivenHere, Lower, SectionNamed, PairFits, LastField, NameIn, Sections, Extended;
    ReadableIffLawful(lines);
    LineInStep(lines, line);
    LastIs(lines);
    ItemIs(line);
    SectionsGrow(lines, line);
    EffectiveSnoc(Sections(lines), ItemOf(line), s);
    GivenSnoc(lines, line, Place(s).0, Place(s).1);
    NothingInEmptySections();
    if IsHeader(Content(line)) {
      KnownIs(NameIn(Content(line)));
    }
    if ItemOf(line).Entry? {
      var pair := ItemOf(line).pair;
      if Under(lines).Some? {
        SettingPlaced(Under(lines).value, Last(lines).kind, pair.key, s);
        if SettingOf(Last(lines).kind, pair.key) == Some(s) {
          FitsMeans(Last(lines).kind, pair, s);
        }
      }
    }
  }

  // Backends: one for each section, in order, with what was given last.

  function BackendsIn(lines: seq<string>): seq<BackendConfig> {
    if lines == [] then []
    else
      var before, text := lines[..|lines| - 1], Content(lines[|lines| - 1]);
      var backends := BackendsIn(before);
      if IsHeader(text) && IsBackend(NameIn(text)) then backends + [BackendConfig(Trimmed(NameIn(text)[8..]), "", 0, 1)]
      else if IsEntry(text) && backends != [] && Under(before).Some? && IsBackend(Under(before).value) then
        backends[..|backends| - 1] + [WithField(backends[|backends| - 1], KeyIn(text), ValueIn(text))]
      else backends
  }

  function WithField(b: BackendConfig, key: string, value: string): BackendConfig {
    if key == "host" then b.(host := value)
    else if key == "port" then b.(port := OrElse(Integer(value), 0))
    else if key == "weight" then b.(weight := OrElse(Integer(value), 0))
    else b
  }

  lemma BackendsSnoc(lines: seq<string>, line: string)
    ensures
      var text, backends := Content(line), BackendsIn(lines);
      BackendsIn(lines + [line]) ==
        if IsHeader(text) && IsBackend(NameIn(text)) then
          backends + [BackendConfig(Trimmed(NameIn(text)[8..]), "", 0, 1)]
        else if IsEntry(text) && backends != [] && Under(lines).Some? && IsBackend(Under(lines).value) then
          backends[..|backends| - 1] + [WithField(backends[|backends| - 1], KeyIn(text), ValueIn(text))]
        else backends
  {
    assert (lines + [line])[..|lines|] == lines;
    hide Content, IsEntry, KeyIn, ValueIn, Under, Lower, NameIn, IsHeader, WithField, Trimmed;
  }

  lemma BackendExtended(name: string, pairs: seq<Pair>, pair: Pair)
    requires BackendRule(pair.key, pair.value)
    ensures BackendOf(name, pairs + [pair]) == WithField(BackendOf(name, pairs), pair.key, pair.value)
  {
    hide Integer, LastField, BackendField;
    KeyFields(pair.key);
    FieldSnoc(pairs, pair, Host);
    FieldSnoc(pairs, pair, Port);
    FieldSnoc(pairs, pair, Weight);
  }

  lemma ItemGives(sections: seq<Section>, item: Item)
    requires sections != []
    ensures
      var last, backends := sections[|sections| - 1], BackendsOf(sections);
      && (last.kind.Backend? ==>
            backends != [] && backends[|backends| - 1] == BackendOf(last.kind.name, last.pairs))
      && BackendsOf(Extended(sections, item)) ==
         if item.Header? && item.kind.Backend? then backends + [BackendOf(item.kind.name, [])]
         else if item.Entry? && last.kind.Backend? && backends != [] then
           backends[..|backends| - 1] + [BackendOf(last.kind.name, last.pairs + [item.pair])]
         else backends
  {
    hide BackendOf;
    var longer, last := Extended(sections, item), |sections| - 1;
    match item
    case Header(kind) => assert longer[..|longer| - 1] == sections;
    case Entry(pair) => assert longer[..last] == sections[..last];
    case _ =>
  }

  lemma FreshBackend()
    ensures forall name :: BackendOf(name, []) == BackendConfig(name, "", 0, 1)
  {
  }

  lemma {:induction false} BackendsAreGiven(lines: seq<string>)
    requires Lawful(lines)
    ensures BackendsOf(Sections(lines)) == BackendsIn(lines)
  {
    hide Lawful, LineRule, BackendsOf, BackendsIn, Sections;
    if lines == [] {
      NoBackendsYet();
    } else {
      var init, line := lines[..|lines| - 1], lines[|lines| - 1];
      assert init + [line] == lines;
      LawfulSnoc(init, line);
      BackendsAreGiven(init);
      LineGives(init, line);
    }
  }

  lemma NoBackendsYet()
    ensures BackendsOf(Sections([])) == BackendsIn([])
  {
    assert Sections([]) == [Section(Nowhere, [])] && Sections([])[..0] == [];
  }

  lemma LineGives(lines: seq<string>, line: string)
    requires Lawful(lines) && LineRule(lines, line) && BackendsOf(Sections(lines)) == BackendsIn(lines)
    ensures BackendsOf(Sections(lines + [line])) == BackendsIn(lines + [line])
  {
    hide Lawful, LineRule, Content, ItemOf, KeyIn, ValueIn, Under, GivenHere, Lower, SectionNamed, PairFits, LastField;
    hide NameIn, Sections, Extended, BackendsOf, BackendsIn, BackendOf, WithField, IsBackend, Trimmed, BackendRule;
    ReadableIffLawful(lines);
    LineInStep(lines, line);
    LastIs(lines);
    ItemIs(line);
    SectionsGrow(lines, line);
    ItemGives(Sections(lines), ItemOf(line));
    BackendsSnoc(lines, line);
    NothingInEmptySections();
    var text := Content(line);
    if IsHeader(text) {
      KnownIs(NameIn(text));
      KindIs(NameIn(text));
      FreshBackend();
    }
    if Under(lines).Some? {
      KindIs(Under(lines).value);
      if ItemOf(line).Entry? && Last(lines).kind.Backend? {
        var pair := ItemOf(line).pair;
        BackendPairFits(Last(lines).kind.name, pair);
        BackendExtended(Last(lines).kind.name, Last(lines).pairs, pair);
      }
    }
  }

  // What the loader accepts and what it reads.

  lemma FigureIs(lines: seq<string>, s: Setting)
    requires Lawful(lines) && !s.ListenHost? && !s.LogLevel?
    ensures
      var v := Effective(Sections(lines), s);
      v.Number? && v.n == Figure(LastGiven(lines, Place(s).0, Place(s).1), ValueAt(DEFAULTS, s).n)
  {
    hide Lawful, LastGiven, Effective, Sections, Integer;
    SettingsAreGiven(lines, s);
  }

  lemma CompleteIff(lines: seq<string>)
    requires Lawful(lines)
    ensures AllComplete(Sections(lines)) <==> !Unfinished(lines)
  {
    hide Lawful, LineRule, Under, GivenHere, LastField, SectionNamed, Sections, PairsFit, ItemOf, Lower, IsBackend;
    ReadableIffLawful(lines);
    LastIs(lines);
    var sections := Sections(lines);
    assert AllComplete(sections[..|sections| - 1]);
    assert AllComplete(sections) <==> Complete(sections[|sections| - 1]) by {
      assert forall i | 0 <= i < |sections| - 1 :: sections[..|sections| - 1][i] == sections[i];
    }
    if Under(lines).Some? {
      KindIs(Under(lines).value);
    }
  }

  /** The loader accepts exactly the files in which every line keeps to the rules, no backend lacks its
      host or port, there is one at least, no name occurs twice, and the health check times out before
      the next one is due. */
  lemma AcceptableIff(lines: seq<string>)
    ensures
      Acceptable(lines) <==>
        && Lawful(lines) && !Unfinished(lines)
        && BackendsIn(lines) != []
        && (forall i, j | 0 <= i < j < |BackendsIn(lines)| :: BackendsIn(lines)[i].name != BackendsIn(lines)[j].name)
        && Figure(LastGiven(lines, "health_check", "timeout_ms"), 800)
             < Figure(LastGiven(lines, "health_check", "interval_ms"), 3000)
  {
    hide Lawful, Unfinished, BackendsIn, BackendsOf, Readable, AllComplete, Sections, Effective, LastGiven, Figure;
    ReadableIffLawful(lines);
    if Lawful(lines) {
      CompleteIff(lines);
      BackendsAreGiven(lines);
      FigureIs(lines, CheckTimeout);
      FigureIs(lines, CheckInterval);
    }
  }

  lemma FigureRead(c: AppConfig, lines: seq<string>, s: Setting, section: string, key: string, otherwise: int)
    requires Lawful(lines) && IsReading(c, lines) && Place(s) == (section, key)
    requires !s.ListenHost? && !s.LogLevel? && ValueAt(DEFAULTS, s) == Number(otherwise)
    ensures ValueAt(c, s) == Number(Figure(LastGiven(lines, section, key), otherwise))
  {
    hide Lawful, LastGiven, Effective, Sections, Figure, BackendsOf, Place;
    FigureIs(lines, s);
    assert ValueAt(c, s) == Effective(Sections(lines), s);
  }

  lemma HostRead(c: AppConfig, lines: seq<string>)
    requires Lawful(lines) && IsReading(c, lines)
    ensures c.listenHost == Words(LastGiven(lines, "server", "listen_host"), "0.0.0.0")
  {
    hide Lawful, LastGiven, Effective, Sections, BackendsOf;
    SettingsAreGiven(lines, ListenHost);
    assert Text(c.listenHost) == ValueAt(c, ListenHost) == Effective(Sections(lines), ListenHost);
  }

  lemma LevelRead(c: AppConfig, lines: seq<string>)
    requires Lawful(lines) && IsReading(c, lines)
    ensures c.logLevel == Lower(Words(LastGiven(lines, "server", "log_level"), "info"))
  {
    hide Lawful, LastGiven, Effective, Sections, BackendsOf, Lower;
    InfoIsLower();
    SettingsAreGiven(lines, LogLevel);
    assert Text(c.logLevel) == ValueAt(c, LogLevel) == Effective(Sections(lines), LogLevel);
  }

  lemma InfoIsLower()
    ensures Lower("info") == "info"
  {
    LowerKeeps("info");
  }

  /** What a loaded configuration says: for each setting the last value given in the section of its
      name, else its default, and the backends of the file. */
  lemma ReadingIs(c: AppConfig, lines: seq<string>)
    requires Lawful(lines) && IsReading(c, lines)
    ensures c.listenHost == Words(LastGiven(lines, "server", "listen_host"), "0.0.0.0")
    ensures c.listenPort == Figure(LastGiven(lines, "server", "listen_port"), 8080)
    ensures c.workers == Figure(LastGiven(lines, "server", "workers"), 4)
    ensures c.backlog == Figure(LastGiven(lines, "server", "backlog"), 1024)
    ensures c.maxEvents == Figure(LastGiven(lines, "server", "max_events"), 2048)
    ensures c.bufferSize == Figure(LastGiven(lines, "server", "buffer_size"), 65536)
    ensures c.connectTimeoutMs == Figure(LastGiven(lines, "server", "connect_timeout_ms"), 3000)
    ensures c.idleTimeoutSeconds == Figure(LastGiven(lines, "server", "idle_timeout_seconds"), 60)
    ensures c.statsIntervalSeconds == Figure(LastGiven(lines, "server", "stats_interval_seconds"), 10)
    ensures c.logLevel == Lower(Words(LastGiven(lines, "server", "log_level"), "info"))
    ensures c.healthCheckIntervalMs == Figure(LastGiven(lines, "health_check", "interval_ms"), 3000)
    ensures c.healthCheckTimeoutMs == Figure(LastGiven(lines, "health_check", "timeout_ms"), 800)
    ensures c.healthCheckFailureThreshold == Figure(LastGiven(lines, "health_check", "failure_threshold"), 3)
    ensures c.healthCheckSuccessThreshold == Figure(LastGiven(lines, "health_check", "success_threshold"), 2)
    ensures c.backends == BackendsIn(lines)
  {
    hide *;
    assert c.backends == BackendsOf(Sections(lines)) by {
      BackendsRead(c, lines);
    }
    BackendsAreGiven(lines);
    HostRead(c, lines);
    LevelRead(c, lines);
    NetRead(c, lines);
    SizesRead(c, lines);
    TimesRead(c, lines);
    ChecksRead(c, lines);
  }

  lemma BackendsRead(c: AppConfig, lines: seq<string>)
    requires IsReading(c, lines)
    ensures c.backends == BackendsOf(Sections(lines))
  {
    hide BackendsOf, Sections, Effective;
  }

  lemma NetRead(c: AppConfig, lines: seq<string>)
    requires Lawful(lines) && IsReading(c, lines)
    ensures c.listenPort == Figure(LastGiven(lines, "server", "listen_port"), 8080)
    ensures c.workers == Figure(LastGiven(lines, "server", "workers"), 4)
    ensures c.backlog == Figure(LastGiven(lines, "server", "backlog"), 1024)
  {
    hide Lawful, LastGiven, Figure, IsReading;
    FigureRead(c, lines, ListenPort, "server", "listen_port", 8080);
    FigureRead(c, lines, Workers, "server", "workers", 4);
    FigureRead(c, lines, Backlog, "server", "backlog", 1024);
  }

  lemma SizesRead(c: AppConfig, lines: seq<string>)
    requires Lawful(lines) && IsReading(c, lines)
    ensures c.maxEvents == Figure(LastGiven(lines, "server", "max_events"), 2048)
    ensures c.bufferSize == Figure(LastGiven(lines, "server", "buffer_size"), 65536)
  {
    hide Lawful, LastGiven, Figure, IsReading;
    FigureRead(c, lines, MaxEvents, "server", "max_events", 2048);
    FigureRead(c, lines, BufferSize, "server", "buffer_size", 65536);
  }

  lemma TimesRead(c: AppConfig, lines: seq<string>)
    requires Lawful(lines) && IsReading(c, lines)
    ensures c.connectTimeoutMs == Figure(LastGiven(lines, "server", "connect_timeout_ms"), 3000)
    ensures c.idleTimeoutSeconds == Figure(LastGiven(lines, "server", "idle_timeout_seconds"), 60)
    ensures c.statsIntervalSeconds == Figure(LastGiven(lines, "server", "stats_interval_seconds"), 10)
  {
    hide Lawful, LastGiven, Figure, IsReading;
    FigureRead(c, lines, ConnectTimeout, "server", "connect_timeout_ms", 3000);
    FigureRead(c, lines, IdleTimeout, "server", "idle_timeout_seconds", 60);
    FigureRead(c, lines, StatsInterval, "server", "stats_interval_seconds", 10);
  }

  lemma ChecksRead(c: AppConfig, lines: seq<string>)
    requires Lawful(lines) && IsReading(c, lines)
    ensures c.healthCheckIntervalMs == Figure(LastGiven(lines, "health_check", "interval_ms"), 3000)
    ensures c.healthCheckTimeoutMs == Figure(LastGiven(lines, "health_check", "timeout_ms"), 800)
    ensures c.healthCheckFailureThreshold == Figure(LastGiven(lines, "health_check", "failure_threshold"), 3)
    ensures c.healthCheckSuccessThreshold == Figure(LastGiven(lines, "health_check", "success_threshold"), 2)
  {
    hide Lawful, LastGiven, Figure, IsReading;
    FigureRead(c, lines, CheckInterval, "health_check", "interval_ms", 3000);
    FigureRead(c, lines, CheckTimeout, "health_check", "timeout_ms", 800);
    FigureRead(c, lines, FailureThreshold, "health_check", "failure_threshold", 3);
    FigureRead(c, lines, SuccessThreshold, "health_check", "success_threshold", 2);
  }
}
