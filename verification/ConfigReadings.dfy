/** What a configuration file means, read declaratively: lines become items, items are split into
    sections, later values win, and each backend section is one backend, in file order. */
module ConfigReadings {
  import opened ConfigText

  datatype BackendConfig = BackendConfig(name: string, host: string, port: int, weight: int)

  datatype AppConfig = AppConfig(
    listenHost: string,
    listenPort: int,
    workers: int,
    backlog: int,
    maxEvents: int,
    bufferSize: int,
    connectTimeoutMs: int,
    idleTimeoutSeconds: int,
    statsIntervalSeconds: int,
    healthCheckIntervalMs: int,
    healthCheckTimeoutMs: int,
    healthCheckFailureThreshold: int,
    healthCheckSuccessThreshold: int,
    logLevel: string,
    backends: seq<BackendConfig>
  )

  const DEFAULTS := AppConfig("0.0.0.0", 8080, 4, 1024, 2048, 64 * 1024, 3000, 60, 10, 3000, 800, 3, 2, "info", [])

  // Settings and their values.

  datatype Setting =
    | ListenHost | ListenPort | Workers | Backlog | MaxEvents | BufferSize | ConnectTimeout | IdleTimeout
    | StatsInterval | LogLevel
    | CheckInterval | CheckTimeout | FailureThreshold | SuccessThreshold

  datatype Value = Number(n: int) | Text(text: string)

  function ServerSetting(key: string): Option<Setting> {
    if key == "listen_host" then Some(ListenHost)
    else if key == "listen_port" then Some(ListenPort)
    else if key == "workers" then Some(Workers)
    else if key == "backlog" then Some(Backlog)
    else if key == "max_events" then Some(MaxEvents)
    else if key == "buffer_size" then Some(BufferSize)
    else if key == "connect_timeout_ms" then Some(ConnectTimeout)
    else if key == "idle_timeout_seconds" then Some(IdleTimeout)
    else if key == "stats_interval_seconds" then Some(StatsInterval)
    else if key == "log_level" then Some(LogLevel)
    else None
  }

  function HealthSetting(key: string): Option<Setting> {
    if key == "interval_ms" then Some(CheckInterval)
    else if key == "timeout_ms" then Some(CheckTimeout)
    else if key == "failure_threshold" then Some(FailureThreshold)
    else if key == "success_threshold" then Some(SuccessThreshold)
    else None
  }

  /** The limits of a numeric setting. */
  function Limits(s: Setting): (int, int) {
    match s
    case ListenPort => (1, 65535)
    case Workers => (1, 128)
    case Backlog => (16, 65535)
    case MaxEvents => (16, 65536)
    case BufferSize => (4096, 16 * 1024 * 1024)
    case ConnectTimeout => (50, 60000)
    case IdleTimeout => (1, 86400)
    case StatsInterval => (0, 3600)
    case CheckInterval => (200, 600000)
    case CheckTimeout => (50, 60000)
    case FailureThreshold => (1, 100)
    case SuccessThreshold => (1, 100)
    case _ => (0, 0)
  }

  predicate Permitted(s: Setting, v: Value) {
    if s.ListenHost? || s.LogLevel? then v.Text? else v.Number? && Limits(s).0 <= v.n <= Limits(s).1
  }

  function NumberIn(text: string, limits: (int, int)): Option<Value> {
    var n := InRange(Integer(text), limits.0, limits.1);
    if n.None? then None else Some(Number(n.value))
  }

  /** What a text means as the value of a setting, if anything. */
  function Meaning(s: Setting, text: string): (v: Option<Value>)
    ensures v.Some? ==> Permitted(s, v.value)
  {
    match s
    case ListenHost => Some(Text(text))
    case LogLevel => Some(Text(Lower(text)))
    case _ => NumberIn(text, Limits(s))
  }

  function ValueAt(c: AppConfig, s: Setting): Value {
    match s
    case ListenHost => Text(c.listenHost)
    case ListenPort => Number(c.listenPort)
    case Workers => Number(c.workers)
    case Backlog => Number(c.backlog)
    case MaxEvents => Number(c.maxEvents)
    case BufferSize => Number(c.bufferSize)
    case ConnectTimeout => Number(c.connectTimeoutMs)
    case IdleTimeout => Number(c.idleTimeoutSeconds)
    case StatsInterval => Number(c.statsIntervalSeconds)
    case LogLevel => Text(c.logLevel)
    case CheckInterval => Number(c.healthCheckIntervalMs)
    case CheckTimeout => Number(c.healthCheckTimeoutMs)
    case FailureThreshold => Number(c.healthCheckFailureThreshold)
    case SuccessThreshold => Number(c.healthCheckSuccessThreshold)
  }

  // Lines.

  datatype Pair = Pair(key: string, value: string)

  datatype Kind = Nowhere | Server | Health | Backend(name: string)

  datatype Item = Nothing | Header(kind: Kind) | Entry(pair: Pair) | Bad

  /** A line without its comment and outer white space. */
  function Content(line: string): string {
    Trimmed(line[..FindFirst(line, {'#', ';'})])
  }

  /** What a section name opens. */
  function SectionNamed(section: string): Item {
    var normalized := Lower(section);
    if normalized == "server" then Header(Server)
    else if normalized == "health_check" then Header(Health)
    else if |normalized| >= 8 && normalized[..8] == "backend " then
      var name := Trimmed(section[8..]);
      if name == [] then Bad else Header(Backend(name))
    else Bad
  }

  function HeaderOf(text: string): Item
    requires |text| >= 2
  {
    SectionNamed(Trimmed(text[1..|text| - 1]))
  }

  function EntryOf(text: string): Item {
    var separator := FindFirst(text, {'='});
    if separator == |text| then Bad
    else
      var pair := Pair(Lower(Trimmed(text[..separator])), Trimmed(text[separator + 1..]));
      if pair.key == [] || pair.value == [] then Bad else Entry(pair)
  }

  function ItemOf(line: string): Item {
    var text := Content(line);
    if text == [] then Nothing
    else if text[0] == '[' && text[|text| - 1] == ']' then HeaderOf(text)
    else EntryOf(text)
  }

  // Sections.

  datatype Section = Section(kind: Kind, pairs: seq<Pair>)

  /** The sections of a file; the first one collects what comes before any header. */
  function Sections(lines: seq<string>): (sections: seq<Section>)
    ensures sections != []
  {
    if lines == [] then [Section(Nowhere, [])]
    else Extended(Sections(lines[..|lines| - 1]), ItemOf(lines[|lines| - 1]))
  }

  function Extended(sections: seq<Section>, item: Item): (r: seq<Section>)
    requires sections != []
    ensures r != []
  {
    var last := sections[|sections| - 1];
    match item
    case Header(kind) => sections + [Section(kind, [])]
    case Entry(pair) => sections[..|sections| - 1] + [Section(last.kind, last.pairs + [pair])]
    case _ => sections
  }

  datatype Field = Host | Port | Weight

  function BackendField(key: string): Option<Field> {
    if key == "host" then Some(Host)
    else if key == "port" then Some(Port)
    else if key == "weight" then Some(Weight)
    else None
  }

  function PortIn(text: string): Option<int> {
    InRange(Integer(text), 1, 65535)
  }

  function WeightIn(text: string): Option<int> {
    InRange(Integer(text), 1, 1000)
  }

  function SettingOf(kind: Kind, key: string): Option<Setting> {
    match kind
    case Server => ServerSetting(key)
    case Health => HealthSetting(key)
    case _ => None
  }

  predicate PairFits(kind: Kind, p: Pair) {
    match kind
    case Nowhere => false
    case Backend(_) =>
      var f := BackendField(p.key);
      f.Some? && (f.value.Port? ==> PortIn(p.value).Some?) && (f.value.Weight? ==> WeightIn(p.value).Some?)
    case _ =>
      var s := SettingOf(kind, p.key);
      s.Some? && Meaning(s.value, p.value).Some?
  }

  predicate PairsFit(sections: seq<Section>) {
    forall i, k | 0 <= i < |sections| && 0 <= k < |sections[i].pairs| ::
      PairFits(sections[i].kind, sections[i].pairs[k])
  }

  /** The last text given for a field of a backend. */
  function LastField(pairs: seq<Pair>, f: Field): Option<string> {
    if pairs == [] then None
    else if BackendField(pairs[|pairs| - 1].key) == Some(f) then Some(pairs[|pairs| - 1].value)
    else LastField(pairs[..|pairs| - 1], f)
  }

  predicate Complete(section: Section) {
    section.kind.Backend? ==> LastField(section.pairs, Host).Some? && LastField(section.pairs, Port).Some?
  }

  predicate AllComplete(sections: seq<Section>) {
    forall i | 0 <= i < |sections| :: Complete(sections[i])
  }

  function OrElse(n: Option<int>, otherwise: int): int {
    if n.Some? then n.value else otherwise
  }

  function BackendOf(name: string, pairs: seq<Pair>): BackendConfig {
    var host, port, weight := LastField(pairs, Host), LastField(pairs, Port), LastField(pairs, Weight);
    BackendConfig(name,
                  if host.Some? then host.value else "",
                  if port.Some? then OrElse(PortIn(port.value), 0) else 0,
                  if weight.Some? then OrElse(WeightIn(weight.value), 0) else 1)
  }

  /** One backend per backend section, in order. */
  function BackendsOf(sections: seq<Section>): seq<BackendConfig> {
    if sections == [] then []
    else
      var last := sections[|sections| - 1];
      BackendsOf(sections[..|sections| - 1]) +
      if last.kind.Backend? then [BackendOf(last.kind.name, last.pairs)] else []
  }

  function LastSetting(kind: Kind, pairs: seq<Pair>, s: Setting): Option<Value> {
    if pairs == [] then None
    else
      var p := pairs[|pairs| - 1];
      if SettingOf(kind, p.key) == Some(s) then Meaning(s, p.value) else LastSetting(kind, pairs[..|pairs| - 1], s)
  }

  /** The last value given for a setting in any section, else the default. */
  function Effective(sections: seq<Section>, s: Setting): Value {
    if sections == [] then ValueAt(DEFAULTS, s)
    else
      var last := sections[|sections| - 1];
      var v := LastSetting(last.kind, last.pairs, s);
      if v.Some? then v.value else Effective(sections[..|sections| - 1], s)
  }

  // Files.

  /** Nothing wrong up to here: a backend section may still be waiting for its host or port. */
  predicate Readable(lines: seq<string>) {
    && (forall i | 0 <= i < |lines| :: ItemOf(lines[i]) != Bad)
    && PairsFit(Sections(lines))
    && AllComplete(Sections(lines)[..|Sections(lines)| - 1])
  }

  predicate Distinct(backends: seq<BackendConfig>) {
    forall i, j | 0 <= i < j < |backends| :: backends[i].name != backends[j].name
  }

  ghost predicate IsReading(c: AppConfig, lines: seq<string>) {
    && (forall s: Setting :: ValueAt(c, s) == Effective(Sections(lines), s))
    && c.backends == BackendsOf(Sections(lines))
  }

  predicate Acceptable(lines: seq<string>) {
    && Readable(lines)
    && AllComplete(Sections(lines))
    && BackendsOf(Sections(lines)) != []
    && Distinct(BackendsOf(Sections(lines)))
    && Effective(Sections(lines), CheckTimeout).Number? && Effective(Sections(lines), CheckInterval).Number?
    && Effective(Sections(lines), CheckTimeout).n < Effective(Sections(lines), CheckInterval).n
  }

  /** The two conditions above leave no freedom: a file has at most one reading. */
  lemma ReadingIsUnique(c: AppConfig, d: AppConfig, lines: seq<string>)
    requires IsReading(c, lines) && IsReading(d, lines)
    ensures c == d
  {
    hide Effective, Sections, BackendsOf;
    SameValues(c, d);
  }

  lemma SameValues(c: AppConfig, d: AppConfig)
    requires (forall s: Setting :: ValueAt(c, s) == ValueAt(d, s)) && c.backends == d.backends
    ensures c == d
  {
    assert ValueAt(c, ListenHost) == ValueAt(d, ListenHost) && ValueAt(c, LogLevel) == ValueAt(d, LogLevel);
    assert ValueAt(c, ListenPort) == ValueAt(d, ListenPort) && ValueAt(c, Workers) == ValueAt(d, Workers);
    assert ValueAt(c, Backlog) == ValueAt(d, Backlog) && ValueAt(c, MaxEvents) == ValueAt(d, MaxEvents);
    assert ValueAt(c, BufferSize) == ValueAt(d, BufferSize) && ValueAt(c, ConnectTimeout) == ValueAt(d, ConnectTimeout);
    assert ValueAt(c, IdleTimeout) == ValueAt(d, IdleTimeout) && ValueAt(c, StatsInterval) == ValueAt(d, StatsInterval);
    assert ValueAt(c, CheckInterval) == ValueAt(d, CheckInterval);
    assert ValueAt(c, CheckTimeout) == ValueAt(d, CheckTimeout);
    assert ValueAt(c, FailureThreshold) == ValueAt(d, FailureThreshold);
    assert ValueAt(c, SuccessThreshold) == ValueAt(d, SuccessThreshold);
  }

  // The line grammar does not depend on layout.

  predicate Comment(s: string) {
    s == "" || s[0] == '#' || s[0] == ';'
  }

  predicate Uncommented(s: string) {
    forall i | 0 <= i < |s| :: s[i] !in {'#', ';'}
  }

  /** Bytes that can stand in one line of a file. */
  predicate Stored(s: string) {
    forall i | 0 <= i < |s| :: s[i] != '\n' && s[i] as int < 256
  }

  /** Text that reads as itself as a value. */
  predicate Tidy(s: string) {
    s != "" && Tight(s) && Uncommented(s) && Stored(s)
  }

  /** Text that reads as itself as a key. */
  predicate Plain(s: string) {
    Tidy(s) && '=' !in s
  }

  lemma {:induction false} FindFirstIn(before: string, after: string, stops: set<char>)
    requires forall i | 0 <= i < |before| :: before[i] !in stops
    requires after == "" || after[0] in stops
    ensures FindFirst(before + after, stops) == |before|
  {
    if before == "" {
      assert before + after == after;
    } else {
      assert (before + after)[1..] == before[1..] + after;
      FindFirstIn(before[1..], after, stops);
    }
  }

  lemma BlankIsUncommented(s: string)
    requires Blank(s)
    ensures Uncommented(s)
  {
  }

  lemma UncommentedJoin(s: string, t: string)
    requires Uncommented(s) && Uncommented(t)
    ensures Uncommented(s + t)
  {
  }

  lemma CommentIsDropped(text: string, comment: string)
    requires Comment(comment) && Uncommented(text)
    ensures Content(text + comment) == Trimmed(text)
  {
    FindFirstIn(text, comment, {'#', ';'});
    assert (text + comment)[..|text|] == text;
  }

  lemma CoreIsUncommented(a: string, key: string, b: string, c: string, value: string, d: string)
    requires Blank(a) && Blank(b) && Blank(c) && Blank(d) && Plain(key) && Tidy(value)
    ensures Uncommented(a + (key + b + "=" + c + value) + d)
  {
    assert Uncommented(key) && Uncommented(value) && Uncommented("=");
    BlankIsUncommented(a);
    BlankIsUncommented(b);
    BlankIsUncommented(c);
    BlankIsUncommented(d);
    hide *;
    UncommentedJoin(key, b);
    UncommentedJoin(key + b, "=");
    UncommentedJoin(key + b + "=", c);
    UncommentedJoin(key + b + "=" + c, value);
    UncommentedJoin(a, key + b + "=" + c + value);
    UncommentedJoin(a + (key + b + "=" + c + value), d);
  }

  /** White space around key and value, letter case of the key, and a comment make no difference. */
  lemma EntryInAnyLayout(a: string, key: string, b: string, c: string, value: string, d: string, comment: string)
    requires Blank(a) && Blank(b) && Blank(c) && Blank(d) && Comment(comment)
    requires Plain(key) && Tidy(value) && !(key[0] == '[' && value[|value| - 1] == ']')
    ensures ItemOf(a + (key + b + "=" + c + value) + d + comment) == Entry(Pair(Lower(key), value))
  {
    var core := key + b + "=" + c + value;
    assert core[0] == key[0] && core[|core| - 1] == value[|value| - 1];
    CoreIsUncommented(a, key, b, c, value, d);
    CommentIsDropped(a + core + d, comment);
    EntryWithin(key, b, c, value);
    hide Trimmed, Lower, FindFirst, EntryOf, HeaderOf, Blank, Uncommented, Comment, IsSpace;
    TrimmedOf(a, core, d);
  }

  lemma EntryWithin(key: string, b: string, c: string, value: string)
    requires Blank(b) && Blank(c) && Plain(key) && Tidy(value)
    ensures EntryOf(key + b + "=" + c + value) == Entry(Pair(Lower(key), value))
  {
    var core := key + b + "=" + c + value;
    assert core == (key + b) + ("=" + c + value);
    FindFirstIn(key + b, "=" + c + value, {'='});
    hide Trimmed, IsSpace, FindFirst;
    assert core[..|key + b|] == "" + key + b && core[|key + b| + 1..] == c + value + "";
    TrimmedOf("", key, b);
    TrimmedOf(c, value, "");
  }

  /** The check for an empty backend name can never fire: what follows "backend " in a trimmed
      header always ends in a visible character. */
  lemma BackendAlwaysHasAName(text: string)
    requires |text| >= 2
    ensures
      var section := Trimmed(text[1..|text| - 1]);
      |section| >= 8 && Lower(section)[..8] == "backend " ==> Trimmed(section[8..]) != ""
  {
    var section := Trimmed(text[1..|text| - 1]);
    var i, j := TrimmedIsTheCore(text[1..|text| - 1]);
    if |section| >= 8 && Lower(section)[..8] == "backend " {
      assert Lower(section)[..8][7] == ' ';
      assert LowerChar(section[7]) == ' ';
      assert |section| > 8;
      var rest := section[8..];
      assert !IsSpace(rest[|rest| - 1]);
      var k, l := TrimmedIsTheCore(rest);
      assert |rest| - 1 < l;
    }
  }

  // Growing a file by one line.

  lemma SectionsGrow(lines: seq<string>, line: string)
    ensures Sections(lines + [line]) == Extended(Sections(lines), ItemOf(line))
  {
    assert (lines + [line])[..|lines|] == lines;
  }

  /** One more item leaves all sections but the last alone and takes nothing from that one. */
  predicate Keeps(sections: seq<Section>, longer: seq<Section>)
    requires sections != []
  {
    var last := |sections| - 1;
    && |longer| >= |sections|
    && longer[..last] == sections[..last]
    && longer[last].kind == sections[last].kind && sections[last].pairs <= longer[last].pairs
  }

  lemma ExtendedKeeps(sections: seq<Section>, item: Item)
    requires sections != []
    ensures Keeps(sections, Extended(sections, item))
    ensures AllComplete(Extended(sections, item)[..|Extended(sections, item)| - 1]) ==>
              AllComplete(sections[..|sections| - 1])
  {
    hide Complete;
    var longer, last := Extended(sections, item), |sections| - 1;
    if AllComplete(longer[..|longer| - 1]) {
      forall i | 0 <= i < last ensures Complete(sections[..last][i]) {
        assert longer[..|longer| - 1][i] == sections[i];
      }
    }
  }

  lemma ShorterFits(sections: seq<Section>, longer: seq<Section>)
    requires sections != [] && Keeps(sections, longer) && PairsFit(longer)
    ensures PairsFit(sections)
  {
    hide PairFits;
    var last := |sections| - 1;
    forall i, k | 0 <= i < |sections| && 0 <= k < |sections[i].pairs|
      ensures PairFits(sections[i].kind, sections[i].pairs[k]) {
      assert i < last ==> longer[..last][i] == sections[..last][i];
      assert longer[i].kind == sections[i].kind && longer[i].pairs[k] == sections[i].pairs[k];
    }
  }

  lemma ShorterIsReadable(lines: seq<string>, line: string)
    requires Readable(lines + [line])
    ensures Readable(lines)
  {
    hide Sections, ItemOf, PairFits, AllComplete, Extended, Keeps, PairsFit;
    SectionsGrow(lines, line);
    ExtendedKeeps(Sections(lines), ItemOf(line));
    ShorterFits(Sections(lines), Sections(lines + [line]));
    assert forall i | 0 <= i < |lines| :: (lines + [line])[i] == lines[i];
  }

  /** A readable file is readable up to every line. */
  lemma {:induction false} ReadableSoFar(lines: seq<string>, n: nat)
    requires Readable(lines) && n <= |lines|
    ensures Readable(lines[..n])
    decreases |lines|
  {
    hide *;
    if n == |lines| {
      assert lines[..n] == lines;
    } else {
      var init := lines[..|lines| - 1];
      assert init + [lines[|lines| - 1]] == lines && init[..n] == lines[..n];
      ShorterIsReadable(init, lines[|lines| - 1]);
      ReadableSoFar(init, n);
    }
  }

  // Files.

  /** The lines getline takes out of a file; a last line need not be terminated. */
  function FileLines(content: string): seq<string> {
    if content == "" then []
    else
      var end := FindFirst(content, {'\n'});
      if end == |content| then [content] else [content[..end]] + FileLines(content[end + 1..])
  }

  predicate Bytes(content: string) {
    forall i | 0 <= i < |content| :: content[i] as int < 256
  }

  lemma {:induction false} FileLinesAreStored(content: string)
    requires Bytes(content)
    ensures forall line | line in FileLines(content) :: Stored(line)
  {
    if content != "" {
      var end := FindFirst(content, {'\n'});
      assert Stored(content[..end]);
      if end < |content| {
        FileLinesAreStored(content[end + 1..]);
      } else {
        assert content[..end] == content;
      }
    }
  }

  // What acceptance guarantees to the rest of the program.

  /** Names and values come out of the line grammar as text that can be written down again. */
  predicate Worded(section: Section) {
    && (section.kind.Backend? ==> Tidy(section.kind.name))
    && forall k | 0 <= k < |section.pairs| :: Tidy(section.pairs[k].value)
  }

  lemma {:induction false} SectionsAreWorded(lines: seq<string>)
    requires forall line | line in lines :: Stored(line)
    ensures forall section | section in Sections(lines) :: Worded(section)
  {
    if lines != [] {
      SectionsAreWorded(lines[..|lines| - 1]);
      ItemIsWorded(lines[|lines| - 1]);
      ExtendedIsWorded(Sections(lines[..|lines| - 1]), ItemOf(lines[|lines| - 1]));
    }
  }

  predicate WordedItem(item: Item) {
    match item
    case Header(Backend(name)) => Tidy(name)
    case Entry(pair) => Tidy(pair.value)
    case _ => true
  }

  lemma TrimmedIsTidy(s: string)
    requires Uncommented(s) && Stored(s)
    ensures Uncommented(Trimmed(s)) && Stored(Trimmed(s)) && (Trimmed(s) != "" ==> Tidy(Trimmed(s)))
  {
    var i, j := TrimmedIsTheCore(s);
    hide Trimmed, Tight;
  }

  lemma SliceIsUncommented(s: string, i: nat, j: nat)
    requires Uncommented(s) && Stored(s) && i <= j <= |s|
    ensures Uncommented(s[i..j]) && Uncommented(s[i..]) && Stored(s[i..j]) && Stored(s[i..])
  {
  }

  lemma ContentIsUncommented(line: string)
    requires Stored(line)
    ensures Uncommented(Content(line)) && Stored(Content(line))
  {
    var kept := line[..FindFirst(line, {'#', ';'})];
    assert Uncommented(kept) && Stored(kept);
    TrimmedIsTidy(kept);
    hide Trimmed, FindFirst, Uncommented, Stored;
  }

  lemma EntryIsWorded(text: string)
    requires Uncommented(text) && Stored(text)
    ensures WordedItem(EntryOf(text))
  {
    hide Trimmed, FindFirst, Lower, Uncommented, Stored, Tidy;
    var separator := FindFirst(text, {'='});
    if separator < |text| {
      SliceIsUncommented(text, separator + 1, |text|);
      TrimmedIsTidy(text[separator + 1..]);
    }
  }

  lemma HeaderIsWorded(text: string)
    requires Uncommented(text) && Stored(text) && |text| >= 2
    ensures WordedItem(HeaderOf(text))
  {
    hide FindFirst, Lower, Uncommented, Stored, Tidy, Trimmed;
    SliceIsUncommented(text, 1, |text| - 1);
    TrimmedIsTidy(text[1..|text| - 1]);
    var section := Trimmed(text[1..|text| - 1]);
    if |section| >= 8 {
      SliceIsUncommented(section, 8, |section|);
      TrimmedIsTidy(section[8..]);
    }
  }

  lemma ItemIsWorded(line: string)
    requires Stored(line)
    ensures WordedItem(ItemOf(line))
  {
    hide Content, HeaderOf, EntryOf, Uncommented, Stored, WordedItem;
    var text := Content(line);
    ContentIsUncommented(line);
    EntryIsWorded(text);
    if text != "" && text[0] == '[' && text[|text| - 1] == ']' {
      HeaderIsWorded(text);
    }
    PlainItemsAreWorded();
  }

  lemma PlainItemsAreWorded()
    ensures WordedItem(Nothing) && WordedItem(Bad)
  {
  }

  lemma ExtendedIsWorded(sections: seq<Section>, item: Item)
    requires sections != [] && WordedItem(item) && forall section | section in sections :: Worded(section)
    ensures forall section | section in Extended(sections, item) :: Worded(section)
  {
    assert Worded(sections[|sections| - 1]);
  }

  lemma {:induction false} EffectiveIsPermitted(sections: seq<Section>, s: Setting)
    ensures Permitted(s, Effective(sections, s))
  {
    if sections != [] {
      var last := sections[|sections| - 1];
      LastIsPermitted(last.kind, last.pairs, s);
      EffectiveIsPermitted(sections[..|sections| - 1], s);
    }
  }

  lemma {:induction false} LastIsPermitted(kind: Kind, pairs: seq<Pair>, s: Setting)
    ensures LastSetting(kind, pairs, s).Some? ==> Permitted(s, LastSetting(kind, pairs, s).value)
  {
    if pairs != [] {
      LastIsPermitted(kind, pairs[..|pairs| - 1], s);
    }
  }

  lemma LowerIsTidy(s: string)
    requires Tidy(s)
    ensures Tidy(Lower(s))
  {
  }

  predicate IsText(s: Setting) {
    s.ListenHost? || s.LogLevel?
  }

  predicate TidyValue(s: Setting, v: Value) {
    v.Text? && Tidy(v.text) && (s.LogLevel? ==> Lower(v.text) == v.text)
  }

  lemma TextMeaningIsTidy(s: Setting, text: string)
    requires IsText(s) && Tidy(text)
    ensures Meaning(s, text).Some? && TidyValue(s, Meaning(s, text).value)
  {
    LowerIsTidy(text);
    LowerTwice(text);
    hide Lower, Tidy;
  }

  lemma {:induction false} LastTextIsTidy(kind: Kind, pairs: seq<Pair>, s: Setting)
    requires IsText(s) && forall k | 0 <= k < |pairs| :: Tidy(pairs[k].value)
    ensures LastSetting(kind, pairs, s).Some? ==> TidyValue(s, LastSetting(kind, pairs, s).value)
  {
    hide Tidy, Meaning, SettingOf, TidyValue, IsText;
    if pairs != [] {
      LastTextIsTidy(kind, pairs[..|pairs| - 1], s);
      TextMeaningIsTidy(s, pairs[|pairs| - 1].value);
    }
  }

  lemma DefaultsAreTidy()
    ensures TidyValue(ListenHost, ValueAt(DEFAULTS, ListenHost)) && TidyValue(LogLevel, ValueAt(DEFAULTS, LogLevel))
  {
    LowerKeeps("info");
  }

  lemma {:induction false} EffectiveTextIsTidy(sections: seq<Section>, s: Setting)
    requires IsText(s) && forall section | section in sections :: Worded(section)
    ensures TidyValue(s, Effective(sections, s))
  {
    hide Tidy, TidyValue, ValueAt, LastSetting;
    DefaultsAreTidy();
    if sections != [] {
      var last := sections[|sections| - 1];
      assert Worded(last);
      LastTextIsTidy(last.kind, last.pairs, s);
      EffectiveTextIsTidy(sections[..|sections| - 1], s);
    }
  }

  predicate Serviceable(b: BackendConfig) {
    Tidy(b.name) && Tidy(b.host) && 1 <= b.port <= 65535 && 1 <= b.weight <= 1000
  }

  lemma {:induction false} LastFieldIsThere(pairs: seq<Pair>, f: Field)
    requires LastField(pairs, f).Some?
    ensures exists k | 0 <= k < |pairs| ::
              BackendField(pairs[k].key) == Some(f) && pairs[k].value == LastField(pairs, f).value
  {
    var last := |pairs| - 1;
    if BackendField(pairs[last].key) != Some(f) {
      LastFieldIsThere(pairs[..last], f);
    }
  }

  lemma BackendIsServiceable(section: Section)
    requires section.kind.Backend? && Complete(section) && Worded(section)
    requires forall k | 0 <= k < |section.pairs| :: PairFits(section.kind, section.pairs[k])
    ensures Serviceable(BackendOf(section.kind.name, section.pairs))
  {
    LastFieldIsThere(section.pairs, Host);
    LastFieldIsThere(section.pairs, Port);
    if LastField(section.pairs, Weight).Some? {
      LastFieldIsThere(section.pairs, Weight);
    }
    hide LastField, BackendField, Integer, Tidy;
  }

  lemma {:induction false} BackendsAreServiceable(sections: seq<Section>)
    requires PairsFit(sections) && AllComplete(sections) && forall section | section in sections :: Worded(section)
    ensures forall b | b in BackendsOf(sections) :: Serviceable(b)
  {
    if sections != [] {
      var last := sections[|sections| - 1];
      BackendsAreServiceable(sections[..|sections| - 1]);
      if last.kind.Backend? {
        BackendIsServiceable(last);
      }
    }
  }

  /** What the pool, the workers and the health checker rely on. */
  lemma AcceptedConfigIsUsable(c: AppConfig, lines: seq<string>)
    requires (forall line | line in lines :: Stored(line)) && Acceptable(lines) && IsReading(c, lines)
    ensures c.backends != [] && Distinct(c.backends) && forall b | b in c.backends :: Serviceable(b)
    ensures 1 <= c.listenPort <= 65535 && 1 <= c.workers <= 128 && 16 <= c.backlog <= 65535
    ensures 16 <= c.maxEvents <= 65536
    ensures 4096 <= c.bufferSize <= 16 * 1024 * 1024
    ensures 50 <= c.connectTimeoutMs <= 60000 && 1 <= c.idleTimeoutSeconds <= 86400
    ensures 0 <= c.statsIntervalSeconds <= 3600
    ensures 50 <= c.healthCheckTimeoutMs < c.healthCheckIntervalMs <= 600000
    ensures 1 <= c.healthCheckFailureThreshold <= 100 && 1 <= c.healthCheckSuccessThreshold <= 100
  {
    ValuesComeFromFile(c, lines);
    ValuesArePermitted(c);
    SectionsAreWorded(lines);
    BackendsAreServiceable(Sections(lines));
    hide Sections, Effective, BackendsOf, PairsFit, AllComplete, Distinct, Serviceable, ItemOf, Permitted, ValueAt;
    hide Readable;
    TimeoutIsShorter(c, lines);
  }

  lemma ValuesComeFromFile(c: AppConfig, lines: seq<string>)
    requires IsReading(c, lines)
    ensures forall s: Setting :: Permitted(s, ValueAt(c, s))
  {
    hide Sections, Effective, Permitted, ValueAt, BackendsOf;
    forall s: Setting ensures Permitted(s, ValueAt(c, s)) {
      EffectiveIsPermitted(Sections(lines), s);
      assert ValueAt(c, s) == Effective(Sections(lines), s);
    }
  }

  lemma TimeoutIsShorter(c: AppConfig, lines: seq<string>)
    requires Acceptable(lines) && IsReading(c, lines)
    ensures c.healthCheckTimeoutMs < c.healthCheckIntervalMs
  {
    hide Sections, Effective, BackendsOf, Readable, AllComplete, Distinct;
    assert ValueAt(c, CheckTimeout) == Effective(Sections(lines), CheckTimeout);
    assert ValueAt(c, CheckInterval) == Effective(Sections(lines), CheckInterval);
  }

  lemma ValuesArePermitted(c: AppConfig)
    requires forall s: Setting :: Permitted(s, ValueAt(c, s))
    ensures 1 <= c.listenPort <= 65535 && 1 <= c.workers <= 128 && 16 <= c.backlog <= 65535
    ensures 16 <= c.maxEvents <= 65536
    ensures 4096 <= c.bufferSize <= 16 * 1024 * 1024
    ensures 50 <= c.connectTimeoutMs <= 60000 && 1 <= c.idleTimeoutSeconds <= 86400
    ensures 0 <= c.statsIntervalSeconds <= 3600
    ensures 50 <= c.healthCheckTimeoutMs && c.healthCheckIntervalMs <= 600000
    ensures 1 <= c.healthCheckFailureThreshold <= 100 && 1 <= c.healthCheckSuccessThreshold <= 100
  {
    hide Meaning;
    assert Permitted(ListenPort, ValueAt(c, ListenPort)) && Permitted(Workers, ValueAt(c, Workers));
    assert Permitted(Backlog, ValueAt(c, Backlog)) && Permitted(MaxEvents, ValueAt(c, MaxEvents));
    assert Permitted(BufferSize, ValueAt(c, BufferSize)) && Permitted(ConnectTimeout, ValueAt(c, ConnectTimeout));
    assert Permitted(IdleTimeout, ValueAt(c, IdleTimeout)) && Permitted(StatsInterval, ValueAt(c, StatsInterval));
    assert Permitted(CheckInterval, ValueAt(c, CheckInterval)) && Permitted(CheckTimeout, ValueAt(c, CheckTimeout));
    assert Permitted(FailureThreshold, ValueAt(c, FailureThreshold));
    assert Permitted(SuccessThreshold, ValueAt(c, SuccessThreshold));
  }
}
