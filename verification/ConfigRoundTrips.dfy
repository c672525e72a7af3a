/** Every usable configuration can be written down: the file printed here loads back as itself. */
module ConfigRoundTrips {
  import opened ConfigText
  import opened ConfigReadings
  import opened ConfigLoaders

  const SERVER_SETTINGS: seq<Setting> :=
    [ListenHost, ListenPort, Workers, Backlog, MaxEvents, BufferSize, ConnectTimeout, IdleTimeout, StatsInterval,
     LogLevel]

  const HEALTH_SETTINGS: seq<Setting> := [CheckInterval, CheckTimeout, FailureThreshold, SuccessThreshold]

  function KeyOf(s: Setting): string {
    match s
    case ListenHost => "listen_host"
    case ListenPort => "listen_port"
    case Workers => "workers"
    case Backlog => "backlog"
    case MaxEvents => "max_events"
    case BufferSize => "buffer_size"
    case ConnectTimeout => "connect_timeout_ms"
    case IdleTimeout => "idle_timeout_seconds"
    case StatsInterval => "stats_interval_seconds"
    case LogLevel => "log_level"
    case CheckInterval => "interval_ms"
    case CheckTimeout => "timeout_ms"
    case FailureThreshold => "failure_threshold"
    case SuccessThreshold => "success_threshold"
  }

  function Printed(n: int): string {
    if n >= 0 then Numeral(n) else "-" + Numeral(-n)
  }

  function TextOf(v: Value): string {
    if v.Number? then Printed(v.n) else v.text
  }

  function PairsOf(c: AppConfig, settings: seq<Setting>): seq<Pair> {
    if settings == [] then []
    else
      var last := settings[|settings| - 1];
      PairsOf(c, settings[..|settings| - 1]) + [Pair(KeyOf(last), TextOf(ValueAt(c, last)))]
  }

  function BackendPairs(b: BackendConfig): seq<Pair> {
    [Pair("host", b.host), Pair("port", Printed(b.port)), Pair("weight", Printed(b.weight))]
  }

  function LineOf(p: Pair): string {
    p.key + "=" + p.value
  }

  /** One section as lines. */
  function LinesOf(header: string, pairs: seq<Pair>): seq<string> {
    if pairs == [] then ["[" + header + "]"]
    else LinesOf(header, pairs[..|pairs| - 1]) + [LineOf(pairs[|pairs| - 1])]
  }

  function BackendLines(backends: seq<BackendConfig>): seq<string> {
    if backends == [] then []
    else
      var last := backends[|backends| - 1];
      BackendLines(backends[..|backends| - 1]) + LinesOf("backend " + last.name, BackendPairs(last))
  }

  function Render(c: AppConfig): seq<string> {
    LinesOf("server", PairsOf(c, SERVER_SETTINGS)) + LinesOf("health_check", PairsOf(c, HEALTH_SETTINGS))
      + BackendLines(c.backends)
  }

  /** What loading guarantees, and text that survives being written in a line. */
  predicate Printable(c: AppConfig) {
    && (forall s: Setting :: Permitted(s, ValueAt(c, s)))
    && c.healthCheckTimeoutMs < c.healthCheckIntervalMs
    && c.backends != [] && Distinct(c.backends)
    && (forall b | b in c.backends :: Serviceable(b))
    && Tidy(c.listenHost) && Tidy(c.logLevel) && Lower(c.logLevel) == c.logLevel
  }

  // Numbers.

  lemma NumeralReadsBack(n: nat)
    ensures TrimLeft(Numeral(n)) == Numeral(n) && Decimal(Numeral(n)) == n && Tidy(Numeral(n))
    ensures IsDigit(Numeral(n)[0])
  {
    var s := Numeral(n);
    NumeralRoundTrip(n);
    assert IsDigit(s[0]) && IsDigit(s[|s| - 1]);
    assert Lead(s) == 0;
  }

  lemma PrintedIsTidy(n: nat)
    ensures Tidy(Printed(n))
  {
    NumeralReadsBack(n);
  }

  lemma UnsignedInteger(value: string)
    requires TrimLeft(value) == value && value != "" && value[0] != '-' && value[0] != '+' && Digits(value)
    ensures Integer(value) == Some(Decimal(value))
  {
    hide TrimLeft, Decimal, Digits;
  }

  lemma PrintedReadsBack(n: nat)
    ensures Integer(Printed(n)) == Some(n)
  {
    NumeralReadsBack(n);
    UnsignedInteger(Numeral(n));
    hide *;
  }

  // Lines.

  lemma TidyIsContent(line: string)
    requires Tidy(line)
    ensures Content(line) == line
  {
    CommentIsDropped(line, "");
    TightIsTrimmed(line);
    hide Trimmed, Content;
    assert line + "" == line;
  }

  lemma JoinedIsTidy(key: string, value: string)
    requires Tidy(key) && Tidy(value)
    ensures Tidy(key + "=" + value) && (key + "=" + value)[0] == key[0]
  {
    var line := key + "=" + value;
    assert line[|line| - 1] == value[|value| - 1];
  }

  lemma EntryRead(key: string, value: string)
    requires Plain(key) && Tidy(value)
    ensures EntryOf(key + "=" + value) == Entry(Pair(Lower(key), value))
  {
    var line := key + ("=" + value);
    FindFirstIn(key, "=" + value, {'='});
    TightIsTrimmed(key);
    TightIsTrimmed(value);
    hide Trimmed, Lower, FindFirst, Tight, Uncommented, Stored;
    assert line[..|key|] == key && line[|key| + 1..] == value;
    assert key + "=" + value == line;
  }

  lemma EntryLine(p: Pair)
    requires Plain(p.key) && p.key[0] != '[' && Lower(p.key) == p.key && Tidy(p.value)
    ensures ItemOf(LineOf(p)) == Entry(p)
  {
    JoinedIsTidy(p.key, p.value);
    TidyIsContent(LineOf(p));
    EntryRead(p.key, p.value);
    hide Content, EntryOf, HeaderOf, Lower, Tidy, Plain;
  }

  lemma HeaderLine(header: string)
    requires Tidy(header)
    ensures ItemOf("[" + header + "]") == SectionNamed(header)
  {
    var line := "[" + header + "]";
    assert line[0] == '[' && line[|line| - 1] == ']';
    assert Tidy(line);
    TidyIsContent(line);
    TightIsTrimmed(header);
    hide Content, EntryOf, SectionNamed, Tidy, Trimmed;
    assert line[1..|line| - 1] == header;
  }

  lemma ServerHeader()
    ensures ItemOf("[" + "server" + "]") == Header(Server)
  {
    LowerKeeps("server");
    HeaderLine("server");
    hide ItemOf, Lower, Trimmed;
  }

  lemma HealthHeader()
    ensures ItemOf("[" + "health_check" + "]") == Header(Health)
  {
    LowerKeeps("health_check");
    HeaderLine("health_check");
    hide ItemOf, Lower, Trimmed;
    assert |"health_check"| != |"server"|;
  }

  lemma BackendPrefix(name: string)
    ensures
      var section := "backend " + name;
      section[8..] == name && |Lower(section)| == |section| && Lower(section)[..8] == "backend "
  {
    var section := "backend " + name;
    LowerKeeps("backend ");
    assert Lower(section)[..8] == Lower("backend ");
  }

  lemma BackendNamed(name: string)
    requires Tidy(name)
    ensures SectionNamed("backend " + name) == Header(Backend(name))
  {
    hide Trimmed, Lower, Uncommented, Stored;
    var section := "backend " + name;
    TightIsTrimmed(name);
    BackendPrefix(name);
    assert Lower(section)[0] == Lower(section)[..8][0] == 'b';
    assert "server"[0] == 's' && "health_check"[0] == 'h';
  }

  lemma BackendSectionIsTidy(name: string)
    requires Tidy(name)
    ensures Tidy("backend " + name)
  {
    var section := "backend " + name;
    assert section[0] == 'b' && section[|section| - 1] == name[|name| - 1];
  }

  lemma BackendHeader(name: string)
    requires Tidy(name)
    ensures ItemOf("[" + ("backend " + name) + "]") == Header(Backend(name))
  {
    hide *;
    BackendNamed(name);
    BackendSectionIsTidy(name);
    HeaderLine("backend " + name);
  }

  // Sections.

  /** Every pair reads as itself. */
  predicate Legible(pairs: seq<Pair>) {
    forall i | 0 <= i < |pairs| :: ItemOf(LineOf(pairs[i])) == Entry(pairs[i])
  }

  predicate NoneBad(lines: seq<string>) {
    forall i | 0 <= i < |lines| :: ItemOf(lines[i]) != Bad
  }

  lemma {:induction false} SectionAppended(lines: seq<string>, header: string, kind: Kind, pairs: seq<Pair>)
    requires ItemOf("[" + header + "]") == Header(kind) && Legible(pairs) && NoneBad(lines)
    ensures Sections(lines + LinesOf(header, pairs)) == Sections(lines) + [Section(kind, pairs)]
    ensures NoneBad(lines + LinesOf(header, pairs))
  {
    hide ItemOf, Sections;
    if pairs == [] {
      SectionsGrow(lines, "[" + header + "]");
    } else {
      var init, last := pairs[..|pairs| - 1], pairs[|pairs| - 1];
      SectionAppended(lines, header, kind, init);
      SectionsGrow(lines + LinesOf(header, init), LineOf(last));
      assert lines + LinesOf(header, pairs) == lines + LinesOf(header, init) + [LineOf(last)];
      assert init + [last] == pairs;
    }
  }

  function BackendSections(backends: seq<BackendConfig>): seq<Section> {
    if backends == [] then []
    else
      var last := backends[|backends| - 1];
      BackendSections(backends[..|backends| - 1]) + [Section(Backend(last.name), BackendPairs(last))]
  }

  lemma BackendPairsAreLegible(b: BackendConfig)
    requires Serviceable(b)
    ensures Legible(BackendPairs(b))
  {
    FieldKeys();
    PrintedIsTidy(b.port);
    PrintedIsTidy(b.weight);
    var host, port, weight := Pair("host", b.host), Pair("port", Printed(b.port)), Pair("weight", Printed(b.weight));
    assert BackendPairs(b) == [host, port, weight];
    hide *;
    EntryLine(host);
    EntryLine(port);
    EntryLine(weight);
    LegibleThree(host, port, weight);
  }

  lemma LegibleThree(a: Pair, b: Pair, c: Pair)
    requires ItemOf(LineOf(a)) == Entry(a) && ItemOf(LineOf(b)) == Entry(b) && ItemOf(LineOf(c)) == Entry(c)
    ensures Legible([a, b, c])
  {
    hide ItemOf, LineOf;
  }

  lemma FieldKeys()
    ensures Plain("host") && Plain("port") && Plain("weight")
    ensures Lower("host") == "host" && Lower("port") == "port" && Lower("weight") == "weight"
    ensures "host"[0] != '[' && "port"[0] != '[' && "weight"[0] != '['
  {
    LowerKeeps("host");
    LowerKeeps("port");
    LowerKeeps("weight");
  }

  lemma {:induction false} BackendsAppended(lines: seq<string>, backends: seq<BackendConfig>)
    requires NoneBad(lines) && forall b | b in backends :: Serviceable(b)
    ensures Sections(lines + BackendLines(backends)) == Sections(lines) + BackendSections(backends)
    ensures NoneBad(lines + BackendLines(backends))
  {
    hide ItemOf, Sections, Serviceable, LinesOf, BackendPairs, NoneBad;
    if backends == [] {
      assert lines + [] == lines && Sections(lines) + [] == Sections(lines);
    } else {
      var init, last := backends[..|backends| - 1], backends[|backends| - 1];
      BackendsAppended(lines, init);
      BackendIsAppended(lines + BackendLines(init), last);
      assert lines + BackendLines(backends)
        == lines + BackendLines(init) + LinesOf("backend " + last.name, BackendPairs(last));
      assert Sections(lines) + BackendSections(backends)
        == Sections(lines) + BackendSections(init) + [Section(Backend(last.name), BackendPairs(last))];
    }
  }

  lemma BackendIsAppended(lines: seq<string>, b: BackendConfig)
    requires NoneBad(lines) && Serviceable(b)
    ensures Sections(lines + LinesOf("backend " + b.name, BackendPairs(b)))
              == Sections(lines) + [Section(Backend(b.name), BackendPairs(b))]
    ensures NoneBad(lines + LinesOf("backend " + b.name, BackendPairs(b)))
  {
    BackendHeader(b.name);
    BackendPairsAreLegible(b);
    hide ItemOf, Sections, BackendPairs;
    SectionAppended(lines, "backend " + b.name, Backend(b.name), BackendPairs(b));
  }

  // Settings.

  lemma ServerKey(s: Setting)
    requires s in SERVER_SETTINGS
    ensures ServerSetting(KeyOf(s)) == Some(s)
  {
    var listenHost, listenPort, bufferSize := "listen_host", "listen_port", "buffer_size";
    var workers, backlog := "workers", "backlog";
    assert listenHost[7] == 'h' && listenPort[7] == 'p' && bufferSize[0] == 'b';
    assert listenHost[0] == listenPort[0] == 'l';
    assert workers[0] == 'w' && backlog[0] == 'b';
  }

  lemma HealthKey(s: Setting)
    requires s in HEALTH_SETTINGS
    ensures HealthSetting(KeyOf(s)) == Some(s)
  {
    var failure, success := "failure_threshold", "success_threshold";
    assert failure[0] == 'f' && success[0] == 's';
  }

  predicate Word(s: string) {
    s != "" && forall i | 0 <= i < |s| :: s[i] == '_' || 'a' <= s[i] <= 'z'
  }

  lemma WordIsPlain(s: string)
    requires Word(s)
    ensures Plain(s) && s[0] != '[' && Lower(s) == s
  {
    LowerKeeps(s);
  }

  lemma ServerWords()
    ensures Word("listen_host") && Word("listen_port") && Word("workers") && Word("backlog") && Word("max_events")
    ensures Word("buffer_size")
  {
  }

  lemma TimeoutWords()
    ensures Word("connect_timeout_ms") && Word("idle_timeout_seconds") && Word("interval_ms") && Word("timeout_ms")
  {
  }

  lemma OtherWords()
    ensures Word("stats_interval_seconds") && Word("log_level") && Word("failure_threshold")
    ensures Word("success_threshold")
  {
  }

  lemma KeyIsWord(s: Setting)
    ensures Word(KeyOf(s))
  {
    hide Word;
    ServerWords();
    TimeoutWords();
    OtherWords();
  }

  lemma KeyIsPlain(s: Setting)
    ensures Plain(KeyOf(s)) && KeyOf(s)[0] != '[' && Lower(KeyOf(s)) == KeyOf(s)
  {
    hide *;
    KeyIsWord(s);
    WordIsPlain(KeyOf(s));
  }

  lemma NumberReadsBack(n: int, limits: (int, int))
    requires 0 <= limits.0 <= n <= limits.1 <= LONG_MAX
    ensures NumberIn(Printed(n), limits) == Some(Number(n))
  {
    hide Integer, Printed;
    PrintedReadsBack(n);
  }

  /** A permitted value, as text, means itself. */
  lemma MeaningReadsBack(s: Setting, v: Value)
    requires Permitted(s, v)
    requires s.LogLevel? ==> Lower(v.text) == v.text
    ensures Meaning(s, TextOf(v)) == Some(v)
  {
    hide NumberIn, Printed, Lower;
    if v.Number? {
      NumberReadsBack(v.n, Limits(s));
    }
  }

  lemma ValueIsTidy(c: AppConfig, s: Setting)
    requires Printable(c)
    ensures Permitted(s, ValueAt(c, s)) && Tidy(TextOf(ValueAt(c, s)))
    ensures Meaning(s, TextOf(ValueAt(c, s))) == Some(ValueAt(c, s))
  {
    var v := ValueAt(c, s);
    assert Permitted(s, v);
    if v.Number? {
      PrintedIsTidy(v.n);
    }
    hide Tidy, Meaning, Lower, Printed, Distinct, Serviceable;
    MeaningReadsBack(s, v);
  }

  /** In the printed pairs of a section every setting of the section is found with its value. */
  lemma {:induction false} SettingFound(c: AppConfig, kind: Kind, settings: seq<Setting>, s: Setting)
    requires Printable(c) && forall t | t in settings :: SettingOf(kind, KeyOf(t)) == Some(t)
    ensures LastSetting(kind, PairsOf(c, settings), s) == if s in settings then Some(ValueAt(c, s)) else None
  {
    hide Printable, Meaning, SettingOf, KeyOf, TextOf, ValueAt;
    if settings != [] {
      var init, last := settings[..|settings| - 1], settings[|settings| - 1];
      SettingFound(c, kind, init, s);
      ValueIsTidy(c, last);
      var pairs := PairsOf(c, settings);
      assert pairs[..|pairs| - 1] == PairsOf(c, init);
      assert settings == init + [last];
    }
  }

  lemma {:induction false} SettingsFit(c: AppConfig, kind: Kind, settings: seq<Setting>)
    requires Printable(c) && (kind.Server? || kind.Health?)
    requires forall t | t in settings :: SettingOf(kind, KeyOf(t)) == Some(t)
    ensures Legible(PairsOf(c, settings))
    ensures forall i | 0 <= i < |PairsOf(c, settings)| :: PairFits(kind, PairsOf(c, settings)[i])
  {
    hide Printable, Meaning, SettingOf, KeyOf, TextOf, ValueAt, ItemOf, LineOf, Plain, Tidy, Lower;
    if settings != [] {
      var init, last := settings[..|settings| - 1], settings[|settings| - 1];
      SettingsFit(c, kind, init);
      ValueIsTidy(c, last);
      KeyIsPlain(last);
      EntryLine(Pair(KeyOf(last), TextOf(ValueAt(c, last))));
    }
  }

  // Files.

  function Preface(c: AppConfig): seq<Section> {
    [Section(Nowhere, []), Section(Server, PairsOf(c, SERVER_SETTINGS)), Section(Health, PairsOf(c, HEALTH_SETTINGS))]
  }

  lemma PrefaceIsLegible(c: AppConfig)
    requires Printable(c)
    ensures Legible(PairsOf(c, SERVER_SETTINGS)) && Legible(PairsOf(c, HEALTH_SETTINGS))
    ensures forall i | 0 <= i < |PairsOf(c, SERVER_SETTINGS)| :: PairFits(Server, PairsOf(c, SERVER_SETTINGS)[i])
    ensures forall i | 0 <= i < |PairsOf(c, HEALTH_SETTINGS)| :: PairFits(Health, PairsOf(c, HEALTH_SETTINGS)[i])
  {
    hide *;
    SettingKeys();
    SettingsFit(c, Server, SERVER_SETTINGS);
    SettingsFit(c, Health, HEALTH_SETTINGS);
  }

  lemma AllServiceable(c: AppConfig)
    requires Printable(c)
    ensures forall b | b in c.backends :: Serviceable(b)
  {
    hide Serviceable, Tidy, Distinct, Lower, Permitted, ValueAt;
  }

  lemma NothingRead()
    ensures Sections([]) == [Section(Nowhere, [])] && NoneBad([])
  {
  }

  /** The sections of the printed file. */
  lemma RenderedSections(c: AppConfig)
    requires Printable(c)
    ensures Sections(Render(c)) == Preface(c) + BackendSections(c.backends) && NoneBad(Render(c))
  {
    hide ItemOf, Sections, PairsOf, LinesOf, Legible, NoneBad, BackendLines, BackendSections, Printable, Serviceable;
    hide PairFits;
    PrefaceIsLegible(c);
    AllServiceable(c);
    ServerHeader();
    HealthHeader();
    NothingRead();
    var server := LinesOf("server", PairsOf(c, SERVER_SETTINGS));
    var health := LinesOf("health_check", PairsOf(c, HEALTH_SETTINGS));
    SectionAppended([], "server", Server, PairsOf(c, SERVER_SETTINGS));
    assert [] + server == server;
    SectionAppended(server, "health_check", Health, PairsOf(c, HEALTH_SETTINGS));
    BackendsAppended(server + health, c.backends);
  }

  lemma SettingKeys()
    ensures forall s | s in SERVER_SETTINGS :: SettingOf(Server, KeyOf(s)) == Some(s)
    ensures forall s | s in HEALTH_SETTINGS :: SettingOf(Health, KeyOf(s)) == Some(s)
  {
    hide ServerSetting, HealthSetting, KeyOf;
    forall s | s in SERVER_SETTINGS ensures SettingOf(Server, KeyOf(s)) == Some(s) {
      ServerKey(s);
    }
    forall s | s in HEALTH_SETTINGS ensures SettingOf(Health, KeyOf(s)) == Some(s) {
      HealthKey(s);
    }
  }

  lemma NumberReadsBackIn(n: int, limits: (int, int))
    requires 0 <= limits.0 <= n <= limits.1 <= LONG_MAX
    ensures InRange(Integer(Printed(n)), limits.0, limits.1) == Some(n)
  {
    hide Integer, Printed;
    PrintedReadsBack(n);
  }

  lemma FieldsFound(b: BackendConfig)
    requires Serviceable(b)
    ensures BackendOf(b.name, BackendPairs(b)) == b
    ensures Complete(Section(Backend(b.name), BackendPairs(b)))
    ensures forall i | 0 <= i < |BackendPairs(b)| :: PairFits(Backend(b.name), BackendPairs(b)[i])
  {
    hide BackendField, Integer, Printed, InRange, LastField, Tidy;
    FieldNames();
    NumberReadsBackIn(b.port, (1, 65535));
    NumberReadsBackIn(b.weight, (1, 1000));
    var host, port, weight := Pair("host", b.host), Pair("port", Printed(b.port)), Pair("weight", Printed(b.weight));
    LastOfThree(host, port, weight, Host);
    LastOfThree(host, port, weight, Port);
    LastOfThree(host, port, weight, Weight);
  }

  lemma FieldNames()
    ensures BackendField("host") == Some(Host) && BackendField("port") == Some(Port)
    ensures BackendField("weight") == Some(Weight)
  {
    assert "host"[0] == 'h' && "port"[0] == 'p';
  }

  lemma LastOfThree(a: Pair, b: Pair, c: Pair, f: Field)
    requires BackendField(a.key) == Some(Host) && BackendField(b.key) == Some(Port)
    requires BackendField(c.key) == Some(Weight)
    ensures LastField([a, b, c], f) == Some(match f case Host => a.value case Port => b.value case Weight => c.value)
  {
    hide BackendField;
    assert [a, b, c][..2] == [a, b] && [a, b][..1] == [a];
    assert LastField([a], f) == if f.Host? then Some(a.value) else LastField([], f);
    assert LastField([a, b], f) == if f.Port? then Some(b.value) else LastField([a], f);
  }

  lemma Regrouped<T>(a: seq<T>, b: seq<T>, c: seq<T>)
    ensures a + (b + c) == a + b + c
  {
  }

  lemma BackendSectionsSnoc(sections: seq<Section>, backends: seq<BackendConfig>)
    requires backends != []
    ensures
      var before, last := sections + BackendSections(backends[..|backends| - 1]), backends[|backends| - 1];
      sections + BackendSections(backends) == before + [Section(Backend(last.name), BackendPairs(last))]
  {
    hide BackendPairs;
    var init, last := backends[..|backends| - 1], backends[|backends| - 1];
    Regrouped(sections, BackendSections(init), [Section(Backend(last.name), BackendPairs(last))]);
  }

  lemma OneMoreBackend(sections: seq<Section>, b: BackendConfig)
    requires Serviceable(b)
    ensures BackendsOf(sections + [Section(Backend(b.name), BackendPairs(b))]) == BackendsOf(sections) + [b]
  {
    FieldsFound(b);
    hide BackendPairs, BackendOf, PairFits, Complete;
    var added := Section(Backend(b.name), BackendPairs(b));
    assert (sections + [added])[..|sections|] == sections;
  }

  lemma OneMoreFits(sections: seq<Section>, b: BackendConfig)
    requires Serviceable(b) && PairsFit(sections) && AllComplete(sections)
    ensures
      var longer := sections + [Section(Backend(b.name), BackendPairs(b))];
      PairsFit(longer) && AllComplete(longer)
  {
    FieldsFound(b);
    hide BackendPairs, BackendOf, PairFits, Complete, Serviceable;
  }

  lemma {:induction false} BackendsReadBack(sections: seq<Section>, backends: seq<BackendConfig>)
    requires (forall b | b in backends :: Serviceable(b)) && PairsFit(sections) && AllComplete(sections)
    ensures BackendsOf(sections + BackendSections(backends)) == BackendsOf(sections) + backends
    ensures PairsFit(sections + BackendSections(backends)) && AllComplete(sections + BackendSections(backends))
  {
    hide BackendsOf, BackendPairs, PairsFit, AllComplete, Serviceable;
    if backends == [] {
      assert sections + [] == sections && BackendsOf(sections) + [] == BackendsOf(sections);
    } else {
      var init, last := backends[..|backends| - 1], backends[|backends| - 1];
      BackendsReadBack(sections, init);
      BackendSectionsSnoc(sections, backends);
      OneMoreBackend(sections + BackendSections(init), last);
      OneMoreFits(sections + BackendSections(init), last);
      assert BackendsOf(sections) + init + [last] == BackendsOf(sections) + backends;
    }
  }

  lemma {:induction false} BackendsSetNothing(sections: seq<Section>, backends: seq<BackendConfig>, s: Setting)
    ensures Effective(sections + BackendSections(backends), s) == Effective(sections, s)
  {
    hide BackendPairs, Meaning, ValueAt;
    if backends == [] {
      assert sections + [] == sections;
    } else {
      var init, last := backends[..|backends| - 1], backends[|backends| - 1];
      BackendsSetNothing(sections, init, s);
      NoSettingInBackend(Backend(last.name), BackendPairs(last), s);
      var before, added := sections + BackendSections(init), Section(Backend(last.name), BackendPairs(last));
      assert sections + BackendSections(backends) == before + [added];
      assert (before + [added])[..|before|] == before;
    }
  }

  lemma {:induction false} NoSettingInBackend(kind: Kind, pairs: seq<Pair>, s: Setting)
    requires kind.Backend?
    ensures LastSetting(kind, pairs, s) == None
  {
    if pairs != [] {
      NoSettingInBackend(kind, pairs[..|pairs| - 1], s);
    }
  }

  lemma PrefaceReadsBack(c: AppConfig, s: Setting)
    requires Printable(c)
    ensures Effective(Preface(c), s) == ValueAt(c, s)
  {
    SettingKeys();
    hide Printable, SettingOf, PairsOf, ValueAt, KeyOf;
    SettingFound(c, Server, SERVER_SETTINGS, s);
    SettingFound(c, Health, HEALTH_SETTINGS, s);
    var server, health := Section(Server, PairsOf(c, SERVER_SETTINGS)), Section(Health, PairsOf(c, HEALTH_SETTINGS));
    var preface := Preface(c);
    assert preface == [Section(Nowhere, []), server, health];
    assert preface[..2] == [Section(Nowhere, []), server];
    if s !in HEALTH_SETTINGS {
      assert s in SERVER_SETTINGS;
      assert Effective(preface, s) == Effective(preface[..2], s);
    }
  }

  lemma PrefaceFits(c: AppConfig)
    requires Printable(c)
    ensures PairsFit(Preface(c)) && AllComplete(Preface(c)) && BackendsOf(Preface(c)) == []
  {
    hide Printable, PairsOf, PairFits, Legible;
    PrefaceIsLegible(c);
    NoBackendsIn(Section(Nowhere, []), Section(Server, PairsOf(c, SERVER_SETTINGS)),
                 Section(Health, PairsOf(c, HEALTH_SETTINGS)));
  }

  lemma NoBackendsIn(a: Section, b: Section, c: Section)
    requires !a.kind.Backend? && !b.kind.Backend? && !c.kind.Backend?
    ensures BackendsOf([a, b, c]) == []
  {
    assert [a, b, c][..2] == [a, b] && [a, b][..1] == [a];
    assert BackendsOf([a]) == [] && BackendsOf([a, b]) == [];
  }

  // Lines and the file they make.

  function Joined(lines: seq<string>): string {
    if lines == [] then "" else lines[0] + "\n" + Joined(lines[1..])
  }

  lemma {:induction false} JoinedReadsBack(lines: seq<string>)
    requires forall line | line in lines :: Stored(line)
    ensures FileLines(Joined(lines)) == lines && Bytes(Joined(lines))
  {
    if lines != [] {
      var content := lines[0] + ("\n" + Joined(lines[1..]));
      JoinedReadsBack(lines[1..]);
      assert Stored(lines[0]);
      FindFirstIn(lines[0], "\n" + Joined(lines[1..]), {'\n'});
      hide FindFirst;
      assert Joined(lines) == content;
      assert content[..|lines[0]|] == lines[0] && content[|lines[0]| + 1..] == Joined(lines[1..]);
    }
  }

  lemma FirstLine(line: string, rest: string)
    requires Stored(line)
    ensures FileLines(line + ("\n" + rest)) == [line] + FileLines(rest)
  {
    var content := line + ("\n" + rest);
    FindFirstIn(line, "\n" + rest, {'\n'});
    hide FindFirst;
    assert content[..|line|] == line && content[|line| + 1..] == rest;
  }

  lemma OnlyLine(line: string)
    requires Stored(line) && line != ""
    ensures FileLines(line) == [line]
  {
    assert line + "" == line;
    FindFirstIn(line, "", {'\n'});
  }

  /** A last line is read even if no line break ends it. */
  lemma {:induction false} LastLineNeedsNoBreak(lines: seq<string>, last: string)
    requires (forall line | line in lines :: Stored(line)) && Stored(last) && last != ""
    ensures FileLines(Joined(lines) + last) == lines + [last]
  {
    hide FileLines, Stored;
    if lines == [] {
      assert Joined(lines) + last == last;
      OnlyLine(last);
    } else {
      var rest := Joined(lines[1..]) + last;
      assert Joined(lines) + last == lines[0] + ("\n" + rest);
      FirstLine(lines[0], rest);
      LastLineNeedsNoBreak(lines[1..], last);
    }
  }

  predicate AllStored(pairs: seq<Pair>) {
    forall i | 0 <= i < |pairs| :: Stored(pairs[i].key) && Stored(pairs[i].value)
  }

  lemma {:induction false} LinesAreStored(header: string, pairs: seq<Pair>)
    requires Stored(header) && AllStored(pairs)
    ensures forall line | line in LinesOf(header, pairs) :: Stored(line)
  {
    if pairs != [] {
      LinesAreStored(header, pairs[..|pairs| - 1]);
      assert Stored(LineOf(pairs[|pairs| - 1]));
    } else {
      assert Stored("[" + header + "]");
    }
  }

  lemma {:induction false} SettingsAreStored(c: AppConfig, settings: seq<Setting>)
    requires Printable(c)
    ensures AllStored(PairsOf(c, settings))
  {
    hide Printable, KeyOf, TextOf, ValueAt, Stored, Meaning, Permitted;
    if settings != [] {
      var last := settings[|settings| - 1];
      SettingsAreStored(c, settings[..|settings| - 1]);
      ValueIsTidy(c, last);
      KeyIsPlain(last);
    }
  }

  lemma StoredJoin(s: string, t: string)
    requires Stored(s) && Stored(t)
    ensures Stored(s + t)
  {
  }

  lemma BackendIsStored(b: BackendConfig)
    requires Serviceable(b)
    ensures Stored("backend " + b.name) && AllStored(BackendPairs(b))
  {
    assert Stored("backend ");
    FieldKeys();
    PrintedIsTidy(b.port);
    PrintedIsTidy(b.weight);
    hide Printed, Stored, Lower, Tight, Uncommented;
    StoredJoin("backend ", b.name);
  }

  lemma {:induction false} BackendsAreStored(backends: seq<BackendConfig>)
    requires forall b | b in backends :: Serviceable(b)
    ensures forall line | line in BackendLines(backends) :: Stored(line)
  {
    hide Stored, AllStored, LinesOf, BackendPairs, Serviceable;
    if backends != [] {
      var last := backends[|backends| - 1];
      BackendsAreStored(backends[..|backends| - 1]);
      BackendIsStored(last);
      LinesAreStored("backend " + last.name, BackendPairs(last));
    }
  }

  lemma RenderedIsStored(c: AppConfig)
    requires Printable(c)
    ensures forall line | line in Render(c) :: Stored(line)
  {
    assert Stored("server") && Stored("health_check");
    hide Stored, AllStored, LinesOf, PairsOf, BackendLines, Printable;
    SettingsAreStored(c, SERVER_SETTINGS);
    SettingsAreStored(c, HEALTH_SETTINGS);
    LinesAreStored("server", PairsOf(c, SERVER_SETTINGS));
    LinesAreStored("health_check", PairsOf(c, HEALTH_SETTINGS));
    AllServiceable(c);
    BackendsAreStored(c.backends);
  }

  /** The file printed for a configuration is accepted and reads as that configuration, as no other. */
  lemma RoundTrip(c: AppConfig)
    requires Printable(c)
    ensures Acceptable(Render(c)) && IsReading(c, Render(c))
    ensures forall d | IsReading(d, Render(c)) :: d == c
  {
    hide Printable, Render, Preface, BackendSections, Sections, Readable, AllComplete, PairsFit, BackendsOf;
    hide Serviceable, ItemOf, NoneBad, Distinct, ValueAt;
    RenderedSections(c);
    PrefaceFits(c);
    AllServiceable(c);
    BackendsReadBack(Preface(c), c.backends);
    assert [] + c.backends == c.backends;
    forall s: Setting ensures Effective(Sections(Render(c)), s) == ValueAt(c, s) {
      BackendsSetNothing(Preface(c), c.backends, s);
      PrefaceReadsBack(c, s);
    }
    AllWell(c, Render(c));
    forall d | IsReading(d, Render(c)) ensures d == c {
      ReadingIsUnique(c, d, Render(c));
    }
  }

  lemma AllWell(c: AppConfig, lines: seq<string>)
    requires Printable(c) && NoneBad(lines)
    requires PairsFit(Sections(lines)) && AllComplete(Sections(lines)) && BackendsOf(Sections(lines)) == c.backends
    requires forall s: Setting :: Effective(Sections(lines), s) == ValueAt(c, s)
    ensures Acceptable(lines) && IsReading(c, lines)
  {
    hide Sections, ItemOf, PairFits, Complete, BackendsOf, Effective;
    assert Effective(Sections(lines), CheckTimeout) == ValueAt(c, CheckTimeout);
    assert Effective(Sections(lines), CheckInterval) == ValueAt(c, CheckInterval);
  }

  /** Loading what was printed gives the configuration back. */
  method Reload(c: AppConfig) returns (outcome: Outcome)
    requires Printable(c)
    ensures outcome == Loaded(c)
  {
    RoundTrip(c);
    RenderedIsStored(c);
    JoinedReadsBack(Render(c));
    hide *;
    outcome := Load(Some(Joined(Render(c))));
  }

  lemma TextsAreTidy(c: AppConfig, lines: seq<string>)
    requires (forall line | line in lines :: Stored(line)) && IsReading(c, lines)
    ensures Tidy(c.listenHost) && Tidy(c.logLevel) && Lower(c.logLevel) == c.logLevel
  {
    SectionsAreWorded(lines);
    hide Sections, Effective, BackendsOf, Tidy, Lower, Worded, Stored;
    EffectiveTextIsTidy(Sections(lines), ListenHost);
    EffectiveTextIsTidy(Sections(lines), LogLevel);
    assert ValueAt(c, ListenHost) == Effective(Sections(lines), ListenHost);
    assert ValueAt(c, LogLevel) == Effective(Sections(lines), LogLevel);
  }

  lemma AcceptedIsPrintable(c: AppConfig, lines: seq<string>)
    requires (forall line | line in lines :: Stored(line)) && Acceptable(lines) && IsReading(c, lines)
    ensures Printable(c)
  {
    hide Sections, Effective, BackendsOf, Acceptable, IsReading, Permitted, ValueAt, Serviceable, Distinct, Tidy;
    hide Lower, Stored;
    AcceptedConfigIsUsable(c, lines);
    ValuesComeFromFile(c, lines);
    TextsAreTidy(c, lines);
  }

  /** Some file loads as this configuration. */
  ghost predicate Loadable(c: AppConfig) {
    exists content :: Bytes(content) && Acceptable(FileLines(content)) && IsReading(c, FileLines(content))
  }

  /** The configurations the loader can produce are exactly the printable ones. */
  lemma LoadableIffPrintable(c: AppConfig)
    ensures Loadable(c) <==> Printable(c)
  {
    hide Acceptable, IsReading, Printable, Bytes, FileLines, Joined, Render, Stored;
    if Loadable(c) {
      var content :| Bytes(content) && Acceptable(FileLines(content)) && IsReading(c, FileLines(content));
      FileLinesAreStored(content);
      AcceptedIsPrintable(c, FileLines(content));
    }
    if Printable(c) {
      RoundTrip(c);
      RenderedIsStored(c);
      JoinedReadsBack(Render(c));
    }
  }
}
