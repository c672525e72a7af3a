/** The loader: one pass over the lines, each backend committed at the next header or at the end. */
module ConfigLoaders {
  import opened ConfigText
  import opened ConfigReadings

  datatype Outcome =
    | Loaded(config: AppConfig)
    | CannotOpen
    | Stopped(line: nat)   // the exception leaves at this line, counted from zero; |lines| after the last

  datatype Place = NoSection | InServer | InHealth | InBackend

  /** The local variables of the pass. */
  datatype Progress = Progress(
    config: AppConfig,
    section: Place,
    current: BackendConfig,
    insideBackend: bool,
    hasHost: bool,
    hasPort: bool
  )

  function PlaceOf(kind: Kind): Place {
    match kind
    case Nowhere => NoSection
    case Server => InServer
    case Health => InHealth
    case Backend(_) => InBackend
  }

  /** The pass has read these sections: all but the last are in the configuration. */
  ghost predicate Represents(p: Progress, sections: seq<Section>)
    requires sections != []
  {
    var last := sections[|sections| - 1];
    && (forall s: Setting :: ValueAt(p.config, s) == Effective(sections, s))
    && p.config.backends == BackendsOf(sections[..|sections| - 1])
    && PlaceOf(last.kind) == p.section
    && p.insideBackend == last.kind.Backend?
    && (last.kind.Backend? ==> InHand(p, last))
  }

  predicate InHand(p: Progress, last: Section)
    requires last.kind.Backend?
  {
    && p.current == BackendOf(last.kind.name, last.pairs)
    && last.kind.name != ""
    && p.hasHost == LastField(last.pairs, Host).Some?
    && p.hasPort == LastField(last.pairs, Port).Some?
  }

  ghost predicate Assigned(before: AppConfig, after: AppConfig, s: Setting, v: Value) {
    after.backends == before.backends && SettingsAssigned(before, after, s, v)
  }

  ghost predicate SettingsAssigned(before: AppConfig, after: AppConfig, s: Setting, v: Value) {
    forall t: Setting :: ValueAt(after, t) == if t == s then v else ValueAt(before, t)
  }

  /** An unknown key or a value out of range ends the loading. */
  method AssignServerValue(config: AppConfig, key: string, value: string) returns (r: Option<AppConfig>)
    ensures r.Some? <==> ServerSetting(key).Some? && Meaning(ServerSetting(key).value, value).Some?
    ensures r.Some? ==>
              Assigned(config, r.value, ServerSetting(key).value, Meaning(ServerSetting(key).value, value).value)
  {
    hide Integer;
    if key == "listen_host" {
      return Some(config.(listenHost := value));
    } else if key == "listen_port" {
      var n := ParseLong(value, 1, 65535);
      return if n.None? then None else Some(config.(listenPort := n.value));
    } else if key == "workers" {
      var n := ParseLong(value, 1, 128);
      return if n.None? then None else Some(config.(workers := n.value));
    } else if key == "backlog" {
      var n := ParseLong(value, 16, 65535);
      return if n.None? then None else Some(config.(backlog := n.value));
    } else if key == "max_events" {
      var n := ParseLong(value, 16, 65536);
      return if n.None? then None else Some(config.(maxEvents := n.value));
    } else if key == "buffer_size" {
      var n := ParseLong(value, 4096, 16 * 1024 * 1024);
      return if n.None? then None else Some(config.(bufferSize := n.value));
    } else if key == "connect_timeout_ms" {
      var n := ParseLong(value, 50, 60000);
      return if n.None? then None else Some(config.(connectTimeoutMs := n.value));
    } else if key == "idle_timeout_seconds" {
      var n := ParseLong(value, 1, 86400);
      return if n.None? then None else Some(config.(idleTimeoutSeconds := n.value));
    } else if key == "stats_interval_seconds" {
      var n := ParseLong(value, 0, 3600);
      return if n.None? then None else Some(config.(statsIntervalSeconds := n.value));
    } else if key == "log_level" {
      return Some(config.(logLevel := Lower(value)));
    } else {
      return None;
    }
  }

  method AssignHealthValue(config: AppConfig, key: string, value: string) returns (r: Option<AppConfig>)
    ensures r.Some? <==> HealthSetting(key).Some? && Meaning(HealthSetting(key).value, value).Some?
    ensures r.Some? ==>
              Assigned(config, r.value, HealthSetting(key).value, Meaning(HealthSetting(key).value, value).value)
  {
    hide Integer;
    if key == "interval_ms" {
      var n := ParseLong(value, 200, 600000);
      return if n.None? then None else Some(config.(healthCheckIntervalMs := n.value));
    } else if key == "timeout_ms" {
      var n := ParseLong(value, 50, 60000);
      return if n.None? then None else Some(config.(healthCheckTimeoutMs := n.value));
    } else if key == "failure_threshold" {
      var n := ParseLong(value, 1, 100);
      return if n.None? then None else Some(config.(healthCheckFailureThreshold := n.value));
    } else if key == "success_threshold" {
      var n := ParseLong(value, 1, 100);
      return if n.None? then None else Some(config.(healthCheckSuccessThreshold := n.value));
    } else {
      return None;
    }
  }

  /** A pair of a backend section changes its own field, and marks it as given. */
  predicate FieldRead(p: Progress, p': Progress, pair: Pair) {
    && p'.(current := p.current, hasHost := p.hasHost, hasPort := p.hasPort) == p
    && match BackendField(pair.key) {
         case Some(Host) => p'.current == p.current.(host := pair.value) && p'.hasHost && p'.hasPort == p.hasPort
         case Some(Port) =>
           p'.current == p.current.(port := OrElse(PortIn(pair.value), 0)) && p'.hasPort && p'.hasHost == p.hasHost
         case Some(Weight) =>
           p'.current == p.current.(weight := OrElse(WeightIn(pair.value), 0))
           && p'.hasHost == p.hasHost && p'.hasPort == p.hasPort
         case None => false
       }
  }

  method AssignBackendValue(p: Progress, pair: Pair) returns (r: Option<Progress>)
    ensures r.Some? <==> PairFits(Backend(p.current.name), pair)
    ensures r.Some? ==> FieldRead(p, r.value, pair)
  {
    hide Integer;
    if pair.key == "host" {
      return Some(p.(current := p.current.(host := pair.value), hasHost := true));
    } else if pair.key == "port" {
      var n := ParseLong(pair.value, 1, 65535);
      return if n.None? then None else Some(p.(current := p.current.(port := n.value), hasPort := true));
    } else if pair.key == "weight" {
      var n := ParseLong(pair.value, 1, 1000);
      return if n.None? then None else Some(p.(current := p.current.(weight := n.value)));
    } else {
      return None;
    }
  }

  /** Commits the backend in hand, if there is one. */
  method FinishBackend(p: Progress, ghost sections: seq<Section>) returns (r: Option<Progress>)
    requires sections != [] && Represents(p, sections)
    ensures r.Some? <==> Complete(sections[|sections| - 1])
    ensures r.Some? ==> r.value == p.(config := p.config.(backends := BackendsOf(sections)))
  {
    hide Effective, LastField;
    if !p.insideBackend {
      assert BackendsOf(sections) == p.config.backends;
      return Some(p);
    }
    if p.current.name == "" || !p.hasHost || !p.hasPort {
      return None;
    }
    return Some(p.(config := p.config.(backends := p.config.backends + [p.current])));
  }

  /** Reads one line. */
  method Interpret(line: string) returns (item: Item)
    ensures item == ItemOf(line)
  {
    hide Trimmed, Lower;
    var text := Trim(line[..FindFirst(line, {'#', ';'})]);
    if text == "" {
      return Nothing;
    }
    if text[0] == '[' && text[|text| - 1] == ']' {
      var section := Trim(text[1..|text| - 1]);
      var normalized := Lower(section);
      if normalized == "server" {
        return Header(Server);
      } else if normalized == "health_check" {
        return Header(Health);
      } else if |normalized| >= 8 && normalized[..8] == "backend " {
        var name := Trim(section[8..]);
        return if name == "" then Bad else Header(Backend(name));
      } else {
        return Bad;
      }
    }
    var separator := FindFirst(text, {'='});
    if separator == |text| {
      return Bad;
    }
    var key := Trim(text[..separator]);
    var value := Trim(text[separator + 1..]);
    return if key == "" || value == "" then Bad else Entry(Pair(Lower(key), value));
  }

  lemma NewSection(p: Progress, p': Progress, sections: seq<Section>, kind: Kind)
    requires sections != [] && Represents(p, sections)
    requires kind.Backend? ==> kind.name != ""
    requires p' == Progress(p.config.(backends := BackendsOf(sections)), PlaceOf(kind),
                            BackendConfig(if kind.Backend? then kind.name else "", "", 0, 1), kind.Backend?, false,
                            false)
    ensures Represents(p', sections + [Section(kind, [])])
  {
    var longer := sections + [Section(kind, [])];
    assert longer[..|longer| - 1] == sections;
    forall s: Setting ensures ValueAt(p'.config, s) == Effective(longer, s) {
      assert ValueAt(p'.config, s) == ValueAt(p.config, s);
    }
  }

  lemma NewSetting(p: Progress, config: AppConfig, sections: seq<Section>, pair: Pair, s: Setting, v: Value)
    requires sections != [] && Represents(p, sections) && !sections[|sections| - 1].kind.Backend?
    requires SettingOf(sections[|sections| - 1].kind, pair.key) == Some(s) && Meaning(s, pair.value) == Some(v)
    requires Assigned(p.config, config, s, v)
    ensures Represents(p.(config := config), Extended(sections, Entry(pair)))
  {
    hide Meaning, ValueAt, BackendsOf;
    var longer, last := Extended(sections, Entry(pair)), |sections| - 1;
    assert longer[..last] == sections[..last];
    assert longer[last].pairs[..|longer[last].pairs| - 1] == sections[last].pairs;
  }

  lemma BackendPairsSetNothing(sections: seq<Section>, pair: Pair, s: Setting)
    requires sections != [] && sections[|sections| - 1].kind.Backend?
    ensures Effective(Extended(sections, Entry(pair)), s) == Effective(sections, s)
  {
    hide Meaning, ValueAt;
    var longer, last := Extended(sections, Entry(pair)), |sections| - 1;
    assert longer[..last] == sections[..last];
    assert longer[last].pairs[..|longer[last].pairs| - 1] == sections[last].pairs;
  }

  lemma FieldInHand(p: Progress, p': Progress, last: Section, pair: Pair)
    requires last.kind.Backend? && InHand(p, last) && PairFits(last.kind, pair)
    requires FieldRead(p, p', pair)
    ensures InHand(p', Section(last.kind, last.pairs + [pair]))
  {
    hide PortIn, WeightIn, BackendField;
    var pairs := last.pairs + [pair];
    assert pairs[..|pairs| - 1] == last.pairs && pairs[|pairs| - 1] == pair;
  }

  lemma NewField(p: Progress, p': Progress, sections: seq<Section>, pair: Pair)
    requires sections != [] && Represents(p, sections) && sections[|sections| - 1].kind.Backend?
    requires PairFits(sections[|sections| - 1].kind, pair) && FieldRead(p, p', pair)
    ensures Represents(p', Extended(sections, Entry(pair)))
  {
    var longer, last := Extended(sections, Entry(pair)), |sections| - 1;
    FieldInHand(p, p', sections[last], pair);
    assert p'.config == p.config && p'.section == p.section && p'.insideBackend == p.insideBackend;
    forall s: Setting ensures Effective(longer, s) == Effective(sections, s) {
      BackendPairsSetNothing(sections, pair, s);
    }
    hide InHand, FieldRead, PairFits, Effective, ValueAt, BackendsOf;
    assert longer[..last] == sections[..last];
  }

  lemma NamedByHeader(line: string)
    ensures ItemOf(line).Header? && ItemOf(line).kind.Backend? ==> ItemOf(line).kind.name != ""
  {
    hide Content, Trimmed, Lower;
  }

  /** One line, when nothing has gone wrong so far. */
  method ReadLine(p: Progress, line: string, ghost lines: seq<string>) returns (r: Option<Progress>)
    requires Readable(lines) && Represents(p, Sections(lines))
    ensures r.Some? <==> Readable(lines + [line])
    ensures r.Some? ==> Represents(r.value, Sections(lines + [line]))
  {
    var item := Interpret(line);
    ghost var sections := Sections(lines);
    SectionsGrow(lines, line);
    NamedByHeader(line);
    LineIsReadable(lines, line);
    hide *;
    match item {
      case Nothing =>
        return Some(p);
      case Bad =>
        return None;
      case Header(kind) =>
        var q := FinishBackend(p, sections);
        if q.None? {
          return None;
        }
        var started :=
          Progress(q.value.config, PlaceOf(kind), BackendConfig(if kind.Backend? then kind.name else "", "", 0, 1),
                   kind.Backend?, false, false);
        NewSection(p, started, sections, kind);
        return Some(started);
      case Entry(pair) =>
        r := ReadPair(p, pair, sections);
    }
  }

  method ReadPair(p: Progress, pair: Pair, ghost sections: seq<Section>) returns (r: Option<Progress>)
    requires sections != [] && Represents(p, sections)
    ensures r.Some? <==> PairFits(sections[|sections| - 1].kind, pair)
    ensures r.Some? ==> Represents(r.value, Extended(sections, Entry(pair)))
  {
    if p.section == InServer {
      var config := AssignServerValue(p.config, pair.key, pair.value);
      if config.None? {
        return None;
      }
      NewSetting(p, config.value, sections, pair, ServerSetting(pair.key).value,
                 Meaning(ServerSetting(pair.key).value, pair.value).value);
      return Some(p.(config := config.value));
    } else if p.section == InHealth {
      var config := AssignHealthValue(p.config, pair.key, pair.value);
      if config.None? {
        return None;
      }
      NewSetting(p, config.value, sections, pair, HealthSetting(pair.key).value,
                 Meaning(HealthSetting(pair.key).value, pair.value).value);
      return Some(p.(config := config.value));
    } else if p.section == InBackend && p.insideBackend {
      r := AssignBackendValue(p, pair);
      if r.Some? {
        NewField(p, r.value, sections, pair);
      }
    } else {
      return None;
    }
  }

  predicate ItemFits(last: Section, item: Item) {
    match item
    case Nothing => true
    case Bad => false
    case Header(_) => Complete(last)
    case Entry(pair) => PairFits(last.kind, pair)
  }

  lemma ExtendedFits(sections: seq<Section>, item: Item)
    requires sections != [] && PairsFit(sections) && AllComplete(sections[..|sections| - 1]) && item != Bad
    ensures
      var longer := Extended(sections, item);
      PairsFit(longer) && AllComplete(longer[..|longer| - 1]) <==> ItemFits(sections[|sections| - 1], item)
  {
    hide PairFits, Complete;
    var longer, last := Extended(sections, item), |sections| - 1;
    match item
    case Header(_) =>
      assert longer[..|longer| - 1] == sections;
      assert AllComplete(sections) <==> Complete(sections[last]) by {
        assert forall i | 0 <= i < last :: sections[..last][i] == sections[i];
      }
    case Entry(pair) =>
      assert longer[..last] == sections[..last];
      var pairs := sections[last].pairs;
      assert longer[last].pairs == pairs + [pair];
      assert PairsFit(longer) ==> PairFits(longer[last].kind, longer[last].pairs[|pairs|]);
      assert forall k | 0 <= k < |pairs| :: longer[last].pairs[k] == pairs[k];
    case Nothing =>
  }

  /** A further line is readable exactly if it is not malformed, closes no unfinished backend, and
      gives the section it stands in something it can use. */
  lemma LineIsReadable(lines: seq<string>, line: string)
    requires Readable(lines)
    ensures Readable(lines + [line]) <==> ItemFits(Sections(lines)[|Sections(lines)| - 1], ItemOf(line))
  {
    hide Sections, ItemOf, PairsFit, AllComplete, Extended;
    SectionsGrow(lines, line);
    if ItemOf(line) != Bad {
      ExtendedFits(Sections(lines), ItemOf(line));
    }
    assert forall i | 0 <= i < |lines| :: (lines + [line])[i] == lines[i];
    assert (lines + [line])[|lines|] == line;
  }

  lemma EndOfFile(p: Progress, lines: seq<string>)
    requires Readable(lines) && Represents(p, Sections(lines))
    ensures
      var config := p.config.(backends := BackendsOf(Sections(lines)));
      && IsReading(config, lines)
      && (Acceptable(lines) <==>
            && Complete(Sections(lines)[|Sections(lines)| - 1])
            && config.backends != [] && config.healthCheckTimeoutMs < config.healthCheckIntervalMs
            && Distinct(config.backends))
  {
    var sections, config := Sections(lines), p.config.(backends := BackendsOf(Sections(lines)));
    hide Sections, Effective, BackendsOf, PairsFit, Complete, ItemOf, Distinct, InHand;
    forall s: Setting ensures ValueAt(config, s) == Effective(sections, s) {
      assert ValueAt(p.config, s) == Effective(sections, s);
    }
    assert ValueAt(config, CheckTimeout) == Effective(sections, CheckTimeout);
    assert ValueAt(config, CheckInterval) == Effective(sections, CheckInterval);
    assert forall i | 0 <= i < |sections| - 1 :: sections[..|sections| - 1][i] == sections[i];
  }

  lemma Beginning()
    ensures Readable([])
    ensures Represents(Progress(DEFAULTS, NoSection, BackendConfig("", "", 0, 1), false, false, false), Sections([]))
  {
    assert Sections([])[..0] == [];
  }

  method NamesAreDistinct(backends: seq<BackendConfig>) returns (distinct: bool)
    ensures distinct <==> Distinct(backends)
  {
    var names: set<string> := {};
    for i := 0 to |backends|
      invariant Distinct(backends[..i]) && forall n :: n in names <==> exists k | 0 <= k < i :: backends[k].name == n
    {
      if backends[i].name in names {
        return false;
      }
      names := names + {backends[i].name};
    }
    assert backends[..|backends|] == backends;
    return true;
  }

  /** After the last line. */
  method Finish(p: Progress, lines: seq<string>) returns (outcome: Outcome)
    requires Readable(lines) && Represents(p, Sections(lines))
    ensures if Acceptable(lines) then outcome.Loaded? && IsReading(outcome.config, lines)
            else outcome == Stopped(|lines|)
  {
    EndOfFile(p, lines);
    hide Acceptable, Readable, Represents, IsReading, Complete, Sections, BackendsOf, Distinct;
    var finished := FinishBackend(p, Sections(lines));
    if finished.None? {
      return Stopped(|lines|);
    }
    var config := finished.value.config;
    if config.backends == [] || config.healthCheckTimeoutMs >= config.healthCheckIntervalMs {
      return Stopped(|lines|);
    }
    var distinct := NamesAreDistinct(config.backends);
    if !distinct {
      return Stopped(|lines|);
    }
    return Loaded(config);
  }

  /** Everything before the line is in order, the line is not. */
  predicate StopsAt(lines: seq<string>, n: nat) {
    n <= |lines| && Readable(lines[..n]) && (n < |lines| ==> !Readable(lines[..n + 1]))
  }

  lemma StoppedWithin(lines: seq<string>, n: nat)
    requires n < |lines| && Readable(lines[..n]) && !Readable(lines[..n] + [lines[n]])
    ensures StopsAt(lines, n) && !Acceptable(lines)
  {
    hide Readable;
    assert lines[..n + 1] == lines[..n] + [lines[n]];
    if Acceptable(lines) {
      ReadableSoFar(lines, n + 1);
    }
  }

  lemma StoppedAfter(lines: seq<string>)
    requires Readable(lines)
    ensures StopsAt(lines, |lines|)
  {
    assert lines[..|lines|] == lines;
  }

  method LoadLines(lines: seq<string>) returns (outcome: Outcome)
    ensures !outcome.CannotOpen? && (outcome.Loaded? <==> Acceptable(lines))
    ensures outcome.Loaded? ==> IsReading(outcome.config, lines)
    ensures outcome.Stopped? ==> StopsAt(lines, outcome.line)
  {
    var p := Progress(DEFAULTS, NoSection, BackendConfig("", "", 0, 1), false, false, false);
    Beginning();
    hide *;
    ghost var past: seq<string> := [];
    var lineNumber := 0;
    while lineNumber < |lines|
      invariant 0 <= lineNumber <= |lines| && past == lines[..lineNumber]
      invariant Readable(past) && Represents(p, Sections(past))
    {
      var next := ReadLine(p, lines[lineNumber], past);
      if next.None? {
        StoppedWithin(lines, lineNumber);
        return Stopped(lineNumber);
      }
      p := next.value;
      past := past + [lines[lineNumber]];
      lineNumber := lineNumber + 1;
    }
    assert past == lines;
    StoppedAfter(lines);
    outcome := Finish(p, lines);
  }

  /** Loading succeeds exactly on the acceptable files and yields their one reading; otherwise it stops
      at the first line that makes the file unreadable, or after the last. */
  method Load(input: Option<string>) returns (outcome: Outcome)
    ensures outcome.CannotOpen? <==> input.None?
    ensures input.Some? ==> (outcome.Loaded? <==> Acceptable(FileLines(input.value)))
    ensures outcome.Loaded? ==> IsReading(outcome.config, FileLines(input.value))
    ensures outcome.Stopped? ==> StopsAt(FileLines(input.value), outcome.line)
  {
    if input.None? {
      return CannotOpen;
    }
    outcome := LoadLines(FileLines(input.value));
  }
}
