/** Defaults, migration of the legacy format, and validation of a configuration. */
module Configuration {
  import opened Text
  import opened Records
  import opened Feed

  datatype DestinationConfig = DestinationConfig(
    name: string, kind: string, url: string, username: string, password: string,
    source: string, transformers: seq<TransformerConfig>)

  const NO_DESTINATION := DestinationConfig("", "", "", "", "", "", [])

  datatype SourceConfig = SourceConfig(
    name: string, kind: string, url: string, username: string, password: string,
    transformers: seq<TransformerConfig>, destination: DestinationConfig)

  datatype SyncConfig = SyncConfig(interval: string, timeout: string, batchSize: int, deleteMode: string, filterPrivate: bool)

  datatype Settings = Settings(
    sources: seq<SourceConfig>, destinations: seq<DestinationConfig>, databasePath: string, sync: SyncConfig,
    metricsAddr: string, webAddr: string, webToken: string, logLevel: string, logFormat: string)

  function Or(s: string, default: string): string {
    if s == "" then default else s
  }

  // ---------------------------------------------------------------- defaults

  function SourceDefaults(s: SourceConfig, i: nat): SourceConfig {
    s.(name := if s.name == "" && s.url != "" then "source-" + Itoa(i + 1) else s.name, kind := Or(s.kind, "caldav"))
  }

  function DestinationDefaults(d: DestinationConfig, i: nat): DestinationConfig {
    d.(name := if d.name == "" && d.url != "" then "dest-" + Itoa(i + 1) else d.name, kind := Or(d.kind, "caldav"))
  }

  function AllSourceDefaults(ss: seq<SourceConfig>): (r: seq<SourceConfig>)
    ensures |r| == |ss|
  {
    seq(|ss|, i requires 0 <= i < |ss| => SourceDefaults(ss[i], i))
  }

  function AllDestinationDefaults(ds: seq<DestinationConfig>): (r: seq<DestinationConfig>)
    ensures |r| == |ds|
  {
    seq(|ds|, i requires 0 <= i < |ds| => DestinationDefaults(ds[i], i))
  }

  function ScalarDefaults(c: Settings): Settings {
    var metrics := Or(c.metricsAddr, ":8080");
    c.(sync := c.sync.(batchSize := if c.sync.batchSize == 0 then 100 else c.sync.batchSize, deleteMode := Or(c.sync.deleteMode, "soft")),
       metricsAddr := metrics, webAddr := Or(c.webAddr, metrics),
       logLevel := Or(c.logLevel, "info"), logFormat := Or(c.logFormat, "json"))
  }

  function WithDefaults(c: Settings): Settings {
    ScalarDefaults(c).(sources := AllSourceDefaults(c.sources), destinations := AllDestinationDefaults(c.destinations))
  }

  // ---------------------------------------------------------------- migration

  predicate HasNested(s: SourceConfig) {
    s.destination.name != "" || s.destination.url != ""
  }

  predicate IsLegacy(c: Settings) {
    c.destinations == [] && exists s <- c.sources :: HasNested(s)
  }

  function Named(s: SourceConfig, i: nat): SourceConfig {
    s.(name := if s.name == "" then "source-" + Itoa(i + 1) else s.name)
  }

  function NamedAll(ss: seq<SourceConfig>): (r: seq<SourceConfig>)
    ensures |r| == |ss|
  {
    seq(|ss|, i requires 0 <= i < |ss| => Named(ss[i], i))
  }

  function Cleared(ss: seq<SourceConfig>): (r: seq<SourceConfig>)
    ensures |r| == |ss|
  {
    seq(|ss|, i requires 0 <= i < |ss| => ss[i].(destination := NO_DESTINATION))
  }

  function Lifted(s: SourceConfig): DestinationConfig {
    s.destination.(source := s.name, kind := Or(s.destination.kind, "caldav"))
  }

  function LiftedAll(ss: seq<SourceConfig>): seq<DestinationConfig> {
    if ss == [] then []
    else
      var front, last := LiftedAll(ss[..|ss| - 1]), ss[|ss| - 1];
      if HasNested(last) then front + [Lifted(last)] else front
  }

  function Migrated(c: Settings): Settings {
    if c.destinations != [] then c.(sources := Cleared(c.sources))
    else if !IsLegacy(c) then c
    else c.(sources := Cleared(NamedAll(c.sources)), destinations := LiftedAll(NamedAll(c.sources)))
  }

  function Normalised(c: Settings): Settings {
    Migrated(WithDefaults(c))
  }

  // ---------------------------------------------------------------- validation

  datatype ConfigError =
    | NoSource | SourceName(i: nat) | SourceDuplicated(i: nat) | SourceUrl(i: nat) | SourceKind(i: nat) | SourceTransformer(i: nat, ti: nat)
    | NoDestination | DestName(i: nat) | DestDuplicated(i: nat) | DestUrl(i: nat) | DestKind(i: nat) | DestCredentials(i: nat)
    | DestSource(i: nat) | DestUnknownSource(i: nat) | DestTransformer(i: nat, ti: nat)
    | DatabasePath | Interval | Timeout | DeleteMode

  predicate Typed(trs: seq<TransformerConfig>) {
    forall tr <- trs :: tr.kind != ""
  }

  ghost predicate SourceOk(ss: seq<SourceConfig>, i: nat)
    requires i < |ss|
  {
    && ss[i].name != "" && (forall j :: 0 <= j < i ==> ss[j].name != ss[i].name)
    && ss[i].url != "" && ss[i].kind != "" && Typed(ss[i].transformers)
  }

  ghost predicate HasSource(ss: seq<SourceConfig>, name: string) {
    exists i :: 0 <= i < |ss| && ss[i].name == name
  }

  ghost predicate DestOk(ss: seq<SourceConfig>, ds: seq<DestinationConfig>, i: nat)
    requires i < |ds|
  {
    && ds[i].name != "" && (forall j :: 0 <= j < i ==> ds[j].name != ds[i].name)
    && ds[i].url != "" && ds[i].kind != "" && ds[i].username != "" && ds[i].password != ""
    && ds[i].source != "" && HasSource(ss, ds[i].source) && Typed(ds[i].transformers)
  }

  ghost predicate Accepted(c: Settings, isDuration: string -> bool) {
    && c.sources != [] && (forall i :: 0 <= i < |c.sources| ==> SourceOk(c.sources, i))
    && c.destinations != [] && (forall i :: 0 <= i < |c.destinations| ==> DestOk(c.sources, c.destinations, i))
    && c.databasePath != ""
    && (c.sync.interval == "" || isDuration(c.sync.interval))
    && (c.sync.timeout == "" || isDuration(c.sync.timeout))
    && c.sync.deleteMode in {"", "soft", "hard"}
  }

  /** The error names a real defect, and everything checked before it is in order. */
  ghost predicate Blames(c: Settings, e: ConfigError, isDuration: string -> bool) {
    var sourcesOk := c.sources != [] && forall i :: 0 <= i < |c.sources| ==> SourceOk(c.sources, i);
    var destsOk := sourcesOk && c.destinations != [] && forall i :: 0 <= i < |c.destinations| ==> DestOk(c.sources, c.destinations, i);
    match e
    case NoSource => c.sources == []
    case SourceName(i) => SourceTurn(c, i) && c.sources[i].name == ""
    case SourceDuplicated(i) => SourceTurn(c, i) && exists j :: 0 <= j < i && c.sources[j].name == c.sources[i].name
    case SourceUrl(i) => SourceTurn(c, i) && c.sources[i].url == ""
    case SourceKind(i) => SourceTurn(c, i) && c.sources[i].kind == ""
    case SourceTransformer(i, ti) => SourceTurn(c, i) && FirstUntyped(c.sources[i].transformers, ti)
    case NoDestination => sourcesOk && c.destinations == []
    case DestName(i) => sourcesOk && DestTurn(c, i) && c.destinations[i].name == ""
    case DestDuplicated(i) => sourcesOk && DestTurn(c, i) && exists j :: 0 <= j < i && c.destinations[j].name == c.destinations[i].name
    case DestUrl(i) => sourcesOk && DestTurn(c, i) && c.destinations[i].url == ""
    case DestKind(i) => sourcesOk && DestTurn(c, i) && c.destinations[i].kind == ""
    case DestCredentials(i) => sourcesOk && DestTurn(c, i) && (c.destinations[i].username == "" || c.destinations[i].password == "")
    case DestSource(i) => sourcesOk && DestTurn(c, i) && c.destinations[i].source == ""
    case DestUnknownSource(i) => sourcesOk && DestTurn(c, i) && !HasSource(c.sources, c.destinations[i].source)
    case DestTransformer(i, ti) => sourcesOk && DestTurn(c, i) && FirstUntyped(c.destinations[i].transformers, ti)
    case DatabasePath => destsOk && c.databasePath == ""
    case Interval => destsOk && c.sync.interval != "" && !isDuration(c.sync.interval)
    case Timeout => destsOk && c.sync.timeout != "" && !isDuration(c.sync.timeout)
    case DeleteMode => destsOk && c.sync.deleteMode !in {"", "soft", "hard"}
  }

  ghost predicate SourceTurn(c: Settings, i: nat) {
    i < |c.sources| && forall j :: 0 <= j < i ==> SourceOk(c.sources, j)
  }

  ghost predicate DestTurn(c: Settings, i: nat) {
    i < |c.destinations| && forall j :: 0 <= j < i ==> DestOk(c.sources, c.destinations, j)
  }

  ghost predicate FirstUntyped(trs: seq<TransformerConfig>, ti: nat) {
    ti < |trs| && trs[ti].kind == "" && Typed(trs[..ti])
  }

  // ---------------------------------------------------------------- the object

  class Config {
    var sources: seq<SourceConfig>
    var destinations: seq<DestinationConfig>
    var databasePath: string
    var sync: SyncConfig
    var metricsAddr: string
    var webAddr: string
    var webToken: string
    var logLevel: string
    var logFormat: string

    constructor (c: Settings)
      ensures Value() == c
    {
      sources, destinations, databasePath, sync := c.sources, c.destinations, c.databasePath, c.sync;
      metricsAddr, webAddr, webToken, logLevel, logFormat := c.metricsAddr, c.webAddr, c.webToken, c.logLevel, c.logFormat;
    }

    function Value(): Settings
      reads this
    {
      Settings(sources, destinations, databasePath, sync, metricsAddr, webAddr, webToken, logLevel, logFormat)
    }

    method SetScalarDefaults()
      modifies this
      ensures Value() == ScalarDefaults(old(Value()))
    {
      if sync.batchSize == 0 { sync := sync.(batchSize := 100); }
      if sync.deleteMode == "" { sync := sync.(deleteMode := "soft"); }
      if metricsAddr == "" { metricsAddr := ":8080"; }
      if webAddr == "" { webAddr := metricsAddr; }
      if logLevel == "" { logLevel := "info"; }
      if logFormat == "" { logFormat := "json"; }
    }

    method SetSourceDefaults()
      modifies this
      ensures Value() == old(Value()).(sources := AllSourceDefaults(old(sources)))
    {
      for i := 0 to |sources|
        invariant |sources| == |old(sources)|
        invariant forall j :: 0 <= j < i ==> sources[j] == SourceDefaults(old(sources)[j], j)
        invariant forall j :: i <= j < |sources| ==> sources[j] == old(sources)[j]
        invariant Value() == old(Value()).(sources := sources)
      {
        if sources[i].name == "" && sources[i].url != "" {
          sources := sources[i := sources[i].(name := "source-" + Itoa(i + 1))];
        }
        if sources[i].kind == "" {
          sources := sources[i := sources[i].(kind := "caldav")];
        }
      }
    }

    method SetDestinationDefaults()
      modifies this
      ensures Value() == old(Value()).(destinations := AllDestinationDefaults(old(destinations)))
    {
      for i := 0 to |destinations|
        invariant |destinations| == |old(destinations)|
        invariant forall j :: 0 <= j < i ==> destinations[j] == DestinationDefaults(old(destinations)[j], j)
        invariant forall j :: i <= j < |destinations| ==> destinations[j] == old(destinations)[j]
        invariant Value() == old(Value()).(destinations := destinations)
      {
        if destinations[i].name == "" && destinations[i].url != "" {
          destinations := destinations[i := destinations[i].(name := "dest-" + Itoa(i + 1))];
        }
        if destinations[i].kind == "" {
          destinations := destinations[i := destinations[i].(kind := "caldav")];
        }
      }
    }

    method SetDefaults()
      modifies this
      ensures Value() == WithDefaults(old(Value()))
    {
      SetScalarDefaults();
      SetSourceDefaults();
      SetDestinationDefaults();
    }

    method ClearNested()
      modifies this
      ensures Value() == old(Value()).(sources := Cleared(old(sources)))
    {
      for i := 0 to |sources|
        invariant |sources| == |old(sources)|
        invariant forall j :: 0 <= j < i ==> sources[j] == old(sources)[j].(destination := NO_DESTINATION)
        invariant forall j :: i <= j < |sources| ==> sources[j] == old(sources)[j]
        invariant Value() == old(Value()).(sources := sources)
      {
        sources := sources[i := sources[i].(destination := NO_DESTINATION)];
      }
    }

    method NameSources()
      modifies this
      ensures Value() == old(Value()).(sources := NamedAll(old(sources)))
    {
      for i := 0 to |sources|
        invariant |sources| == |old(sources)|
        invariant forall j :: 0 <= j < i ==> sources[j] == Named(old(sources)[j], j)
        invariant forall j :: i <= j < |sources| ==> sources[j] == old(sources)[j]
        invariant Value() == old(Value()).(sources := sources)
      {
        if sources[i].name == "" {
          sources := sources[i := sources[i].(name := "source-" + Itoa(i + 1))];
        }
      }
    }

    method MigrateLegacy()
      modifies this
      ensures Value() == Migrated(old(Value()))
    {
      if |destinations| > 0 {
        ClearNested();
        return;
      }
      var hasLegacy := false;
      for i := 0 to |sources|
        invariant !hasLegacy && forall s <- sources[..i] :: !HasNested(s)
      {
        if HasNested(sources[i]) {
          hasLegacy := true;
          break;
        }
      }
      assert sources[..|sources|] == sources;
      if !hasLegacy {
        return;
      }
      NameSources();
      var dests := [];
      for i := 0 to |sources|
        invariant dests == LiftedAll(sources[..i])
      {
        assert sources[..i + 1][..i] == sources[..i];
        if HasNested(sources[i]) {
          dests := dests + [Lifted(sources[i])];
        }
      }
      assert sources[..|sources|] == sources;
      destinations := dests;
      ClearNested();
    }

    method ValidateSources(isDuration: string -> bool) returns (err: Option<ConfigError>, names: map<string, nat>)
      ensures err.Some? ==> Blames(Value(), err.value, isDuration)
      ensures err.None? ==> sources != [] && forall i :: 0 <= i < |sources| ==> SourceOk(sources, i)
      ensures err.None? ==> forall n :: n in names <==> HasSource(sources, n)
    {
      names := map[];
      if |sources| == 0 { return Some(NoSource), names; }
      for i := 0 to |sources|
        invariant forall n :: n in names <==> exists j :: 0 <= j < i && sources[j].name == n
        invariant SourceTurn(Value(), i) || i == |sources|
        invariant forall j :: 0 <= j < i ==> SourceOk(sources, j)
      {
        var s := sources[i];
        if s.name == "" { return Some(SourceName(i)), names; }
        if s.name in names { return Some(SourceDuplicated(i)), names; }
        names := names[s.name := i];
        if s.url == "" { return Some(SourceUrl(i)), names; }
        if s.kind == "" { return Some(SourceKind(i)), names; }
        var ti := UntypedAt(s.transformers);
        if ti.Some? { return Some(SourceTransformer(i, ti.value)), names; }
      }
      err := None;
    }

    method ValidateDestinations(names: map<string, nat>, isDuration: string -> bool) returns (err: Option<ConfigError>)
      requires sources != [] && forall i :: 0 <= i < |sources| ==> SourceOk(sources, i)
      requires forall n :: n in names <==> HasSource(sources, n)
      ensures err.Some? ==> Blames(Value(), err.value, isDuration)
      ensures err.None? ==> destinations != [] && forall i :: 0 <= i < |destinations| ==> DestOk(sources, destinations, i)
    {
      if |destinations| == 0 { return Some(NoDestination); }
      var destNames: set<string> := {};
      for i := 0 to |destinations|
        invariant forall n :: n in destNames <==> exists j :: 0 <= j < i && destinations[j].name == n
        invariant DestTurn(Value(), i) || i == |destinations|
        invariant forall j :: 0 <= j < i ==> DestOk(sources, destinations, j)
      {
        var d := destinations[i];
        if d.name == "" { return Some(DestName(i)); }
        if d.name in destNames { return Some(DestDuplicated(i)); }
        destNames := destNames + {d.name};
        if d.url == "" { return Some(DestUrl(i)); }
        if d.kind == "" { return Some(DestKind(i)); }
        if d.username == "" || d.password == "" { return Some(DestCredentials(i)); }
        if d.source == "" { return Some(DestSource(i)); }
        if d.source !in names { return Some(DestUnknownSource(i)); }
        var ti := UntypedAt(d.transformers);
        if ti.Some? { return Some(DestTransformer(i, ti.value)); }
      }
      return None;
    }

    /** Reports the first defect, and none exactly for the accepted configurations. */
    method Validate(isDuration: string -> bool) returns (err: Option<ConfigError>)
      ensures err.None? <==> Accepted(Value(), isDuration)
      ensures err.Some? ==> Blames(Value(), err.value, isDuration)
    {
      var names;
      err, names := ValidateSources(isDuration);
      if err.None? {
        err := ValidateDestinations(names, isDuration);
      }
      if err.Some? {
        BlamedIsRejected(Value(), err.value, isDuration);
        return;
      }
      if databasePath == "" { return Some(DatabasePath); }
      if sync.interval != "" && !isDuration(sync.interval) { return Some(Interval); }
      if sync.timeout != "" && !isDuration(sync.timeout) { return Some(Timeout); }
      if sync.deleteMode != "" && sync.deleteMode != "soft" && sync.deleteMode != "hard" { return Some(DeleteMode); }
    }
  }

  method UntypedAt(trs: seq<TransformerConfig>) returns (at: Option<nat>)
    ensures at.None? <==> Typed(trs)
    ensures at.Some? ==> FirstUntyped(trs, at.value)
  {
    for i := 0 to |trs|
      invariant Typed(trs[..i])
    {
      if trs[i].kind == "" { return Some(i); }
    }
    assert trs[..|trs|] == trs;
    return None;
  }

  /** An accepted source or destination is no longer accepted when any one of these is taken from it. */
  lemma {:induction false} SpoiltSource(c: Settings, i: nat, s: SourceConfig, isDuration: string -> bool)
    requires Accepted(c, isDuration) && i < |c.sources|
    requires var t := c.sources[i];
             || s == t.(name := "") || s == t.(url := "") || s == t.(kind := "")
             || (exists tr: TransformerConfig :: tr.kind == "" && s == t.(transformers := t.transformers + [tr]))
             || (exists j :: 0 <= j < |c.sources| && j != i && s == t.(name := c.sources[j].name))
    ensures !Accepted(c.(sources := c.sources[i := s]), isDuration)
  {
    var ss := c.sources[i := s];
    if exists j :: 0 <= j < |c.sources| && j != i && s == c.sources[i].(name := c.sources[j].name) {
      var j :| 0 <= j < |c.sources| && j != i && s == c.sources[i].(name := c.sources[j].name);
      assert ss[j].name == ss[i].name;
      assert !SourceOk(ss, if i < j then j else i);
    } else {
      if tr: TransformerConfig :| tr.kind == "" && s == c.sources[i].(transformers := c.sources[i].transformers + [tr]) {
        assert tr in s.transformers;
      }
      assert !SourceOk(ss, i);
    }
  }

  lemma {:induction false} SpoiltDestination(c: Settings, i: nat, d: DestinationConfig, isDuration: string -> bool)
    requires Accepted(c, isDuration) && i < |c.destinations|
    requires var t := c.destinations[i];
             || d == t.(name := "") || d == t.(url := "") || d == t.(kind := "") || d == t.(username := "") || d == t.(password := "")
             || d == t.(source := "")
             || (d == t.(source := d.source) && forall s <- c.sources :: s.name != d.source)
             || (exists tr: TransformerConfig :: tr.kind == "" && d == t.(transformers := t.transformers + [tr]))
             || (exists j :: 0 <= j < |c.destinations| && j != i && d == t.(name := c.destinations[j].name))
    ensures !Accepted(c.(destinations := c.destinations[i := d]), isDuration)
  {
    var ds := c.destinations[i := d];
    if exists j :: 0 <= j < |c.destinations| && j != i && d == c.destinations[i].(name := c.destinations[j].name) {
      var j :| 0 <= j < |c.destinations| && j != i && d == c.destinations[i].(name := c.destinations[j].name);
      assert ds[j].name == ds[i].name;
      assert !DestOk(c.sources, ds, if i < j then j else i);
    } else {
      if tr: TransformerConfig :| tr.kind == "" && d == c.destinations[i].(transformers := c.destinations[i].transformers + [tr]) {
        assert tr in d.transformers;
      }
      assert !DestOk(c.sources, ds, i);
    }
  }

  /** And conversely this much is enough. */
  lemma {:induction false} MinimalIsAccepted(c: Settings, s: SourceConfig, d: DestinationConfig, isDuration: string -> bool)
    requires c.sources == [s] && s.name != "" && s.url != "" && s.kind != "" && s.transformers == []
    requires c.destinations == [d] && d.name != "" && d.url != "" && d.kind != "" && d.username != "" && d.password != "" && d.transformers == []
    requires d.source == s.name && c.databasePath != ""
    requires c.sync.interval == "" && c.sync.timeout == ""
    ensures Accepted(c, isDuration) <==> c.sync.deleteMode in {"", "soft", "hard"}
    ensures !Accepted(c.(databasePath := ""), isDuration) && !Accepted(c.(sources := []), isDuration) && !Accepted(c.(destinations := []), isDuration)
    ensures forall t: string :: t != "" ==>
              (Accepted(c.(sync := c.sync.(interval := t, deleteMode := "")), isDuration) <==> isDuration(t)) &&
              (Accepted(c.(sync := c.sync.(timeout := t, deleteMode := "")), isDuration) <==> isDuration(t))
  {
    assert SourceOk([s], 0);
    assert HasSource([s], d.source) by { assert [s][0].name == d.source; }
    assert DestOk([s], [d], 0);
  }

  /** A configuration that some error blames is not accepted. */
  lemma BlamedIsRejected(c: Settings, e: ConfigError, isDuration: string -> bool)
    requires Blames(c, e, isDuration)
    ensures !Accepted(c, isDuration)
  {
    if e.SourceName? || e.SourceDuplicated? || e.SourceUrl? || e.SourceKind? || e.SourceTransformer? {
      assert !SourceOk(c.sources, e.i);
    } else if e.DestName? || e.DestDuplicated? || e.DestUrl? || e.DestKind? || e.DestCredentials? || e.DestSource?
              || e.DestUnknownSource? || e.DestTransformer? {
      assert !DestOk(c.sources, c.destinations, e.i);
    }
  }

  // ---------------------------------------------------------------- fixpoints

  lemma {:induction false} LiftedLast(ss: seq<SourceConfig>)
    ensures forall d <- LiftedAll(ss) :: d.kind != ""
    ensures (forall d <- LiftedAll(ss) :: d.name != "") <==> forall s <- ss :: HasNested(s) ==> s.destination.name != ""
    ensures LiftedAll(ss) == [] <==> forall s <- ss :: !HasNested(s)
  {
    if ss != [] {
      var n := |ss| - 1;
      LiftedLast(ss[..n]);
      assert ss == ss[..n] + [ss[n]];
      if HasNested(ss[n]) {
        assert LiftedAll(ss) == LiftedAll(ss[..n]) + [Lifted(ss[n])];
      }
    }
  }

  predicate DefaultedSource(s: SourceConfig) {
    (s.name != "" || s.url == "") && s.kind != ""
  }

  predicate DefaultedDestination(d: DestinationConfig) {
    (d.name != "" || d.url == "") && d.kind != ""
  }

  predicate DefaultedScalars(c: Settings) {
    c.sync.batchSize != 0 && c.sync.deleteMode != "" && c.metricsAddr != "" && c.webAddr != "" && c.logLevel != "" && c.logFormat != ""
  }

  lemma SourcesFixpoint(ss: seq<SourceConfig>)
    ensures AllSourceDefaults(ss) == ss <==> forall s <- ss :: DefaultedSource(s)
  {
    var w := AllSourceDefaults(ss);
    forall i | 0 <= i < |ss| ensures w[i] == ss[i] <==> DefaultedSource(ss[i]) {
      assert |"source-"| == 7;
    }
  }

  lemma DestinationsFixpoint(ds: seq<DestinationConfig>)
    ensures AllDestinationDefaults(ds) == ds <==> forall d <- ds :: DefaultedDestination(d)
  {
    var w := AllDestinationDefaults(ds);
    forall i | 0 <= i < |ds| ensures w[i] == ds[i] <==> DefaultedDestination(ds[i]) {
      assert |"dest-"| == 5;
    }
  }

  /** A configuration is untouched by the defaults exactly when they have nothing to fill in. */
  lemma DefaultsFixpoint(c: Settings)
    ensures WithDefaults(c) == c <==>
            && DefaultedScalars(c)
            && (forall s <- c.sources :: DefaultedSource(s))
            && (forall d <- c.destinations :: DefaultedDestination(d))
  {
    SourcesFixpoint(c.sources);
    DestinationsFixpoint(c.destinations);
  }

  /** Migration leaves no nested destination behind, whichever way it goes. */
  lemma NothingNested(c: Settings)
    ensures forall s <- Migrated(c).sources :: !HasNested(s)
  {
    if c.destinations == [] && IsLegacy(c) {
      forall s <- Migrated(c).sources ensures !HasNested(s) {}
    }
  }

  lemma MigrationIsDone(c: Settings)
    ensures Migrated(Migrated(c)) == Migrated(c)
  {
    NothingNested(c);
    var m := Migrated(c);
    if m.destinations != [] {
      forall i | 0 <= i < |m.sources| ensures Cleared(m.sources)[i] == m.sources[i] {
        assert c.destinations != [] || IsLegacy(c);
      }
      assert Cleared(m.sources) == m.sources;
    }
  }

  /** Some legacy destination has an address but no name. */
  predicate NamelessLegacy(c: Settings) {
    IsLegacy(c) && exists s <- c.sources :: s.destination.name == "" && s.destination.url != ""
  }

  /** After one normalisation only nameless legacy destinations are left for the defaults to fill in. */
  lemma DefaultedAfter(c: Settings)
    ensures WithDefaults(Normalised(c)) == Normalised(c) <==> !NamelessLegacy(c)
  {
    var w := WithDefaults(c);
    var m := Normalised(c);
    DefaultsFixpoint(m);
    assert DefaultedScalars(m);
    forall i | 0 <= i < |w.sources| ensures DefaultedSource(w.sources[i]) && w.sources[i].destination == c.sources[i].destination {
      assert |"source-"| == 7;
    }
    forall i | 0 <= i < |m.sources| ensures DefaultedSource(m.sources[i]) {
      assert |"source-"| == 7 && DefaultedSource(w.sources[i]);
    }
    assert IsLegacy(w) <==> IsLegacy(c) by {
      LegacyKept(c, w);
    }
    if c.destinations != [] {
      forall i | 0 <= i < |w.destinations| ensures DefaultedDestination(w.destinations[i]) {
        assert |"dest-"| == 5;
      }
    } else if IsLegacy(c) {
      NamelessLifted(c, w);
    }
  }

  lemma LegacyKept(c: Settings, w: Settings)
    requires w == WithDefaults(c)
    ensures IsLegacy(w) <==> IsLegacy(c)
  {
    if IsLegacy(c) {
      var i :| 0 <= i < |c.sources| && HasNested(c.sources[i]);
      assert HasNested(w.sources[i]) && w.sources[i] in w.sources;
    }
    if IsLegacy(w) {
      var i :| 0 <= i < |w.sources| && HasNested(w.sources[i]);
      assert HasNested(c.sources[i]) && c.sources[i] in c.sources;
    }
  }

  lemma {:induction false} NamelessLifted(c: Settings, w: Settings)
    requires w == WithDefaults(c) && IsLegacy(c)
    ensures (forall d <- LiftedAll(NamedAll(w.sources)) :: DefaultedDestination(d)) <==> !NamelessLegacy(c)
  {
    var ss := NamedAll(w.sources);
    LiftedDefaulted(ss);
    SameNested(c, ss);
  }

  lemma {:induction false} SameNested(c: Settings, ss: seq<SourceConfig>)
    requires IsLegacy(c) && |ss| == |c.sources| && forall i :: 0 <= i < |ss| ==> ss[i].destination == c.sources[i].destination
    ensures NamelessLegacy(c) <==> exists s <- ss :: HasNested(s) && s.destination.name == ""
  {
    if NamelessLegacy(c) {
      var i :| 0 <= i < |c.sources| && c.sources[i].destination.name == "" && c.sources[i].destination.url != "";
      assert ss[i] in ss && HasNested(ss[i]);
    }
    if exists s <- ss :: HasNested(s) && s.destination.name == "" {
      var i :| 0 <= i < |ss| && HasNested(ss[i]) && ss[i].destination.name == "";
      assert c.sources[i] in c.sources;
    }
  }

  lemma {:induction false} LiftedDefaulted(ss: seq<SourceConfig>)
    ensures (forall d <- LiftedAll(ss) :: DefaultedDestination(d)) <==> !exists s <- ss :: HasNested(s) && s.destination.name == ""
  {
    LiftedLast(ss);
    LiftedHaveUrl(ss);
  }

  lemma {:induction false} LiftedHaveUrl(ss: seq<SourceConfig>)
    ensures forall d <- LiftedAll(ss) :: d.name == "" ==> d.url != ""
  {
    if ss != [] {
      LiftedHaveUrl(ss[..|ss| - 1]);
    }
  }

  /** Normalising twice is the same as normalising once exactly when no legacy destination lacks a name: such a
      destination is lifted without one, and only a second pass of the defaults would name it. */
  lemma NormalisedTwice(c: Settings)
    ensures Normalised(Normalised(c)) == Normalised(c) <==> !NamelessLegacy(c)
  {
    DefaultedAfter(c);
    MigrationIsDone(WithDefaults(c));
    if NamelessLegacy(c) {
      SecondPassNames(c);
    }
  }

  lemma SecondPassNames(c: Settings)
    requires NamelessLegacy(c)
    ensures Normalised(Normalised(c)) != Normalised(c)
  {
    var m := Normalised(c);
    var w := WithDefaults(m);
    DefaultedAfter(c);
    LegacyKept(c, WithDefaults(c));
    LiftedLast(NamedAll(WithDefaults(c).sources));
    assert m.destinations != [] by {
      var i :| 0 <= i < |c.sources| && HasNested(c.sources[i]);
      assert HasNested(NamedAll(WithDefaults(c).sources)[i]);
    }
    NamelessLifted(c, WithDefaults(c));
    DestinationsFixpoint(m.destinations);
    assert Normalised(m).destinations == w.destinations;
  }

  /** Every accepted configuration is a fixpoint of defaults and migration. */
  lemma AcceptedIsFixpoint(c: Settings, isDuration: string -> bool)
    requires Accepted(Normalised(c), isDuration)
    ensures WithDefaults(Normalised(c)) == Normalised(c) && Migrated(Normalised(c)) == Normalised(c)
  {
    MigrationIsDone(WithDefaults(c));
    DefaultedAfter(c);
    var m := Normalised(c);
    forall i | 0 <= i < |m.destinations| ensures DefaultedDestination(m.destinations[i]) {
      assert DestOk(m.sources, m.destinations, i);
    }
    LegacyKept(c, WithDefaults(c));
    if IsLegacy(c) {
      NamelessLifted(c, WithDefaults(c));
    }
  }

  /** What is filled in, and that all else stays. */
  lemma DefaultsAre(c: Settings)
    ensures var w := WithDefaults(c);
            && w.sync.batchSize == (if c.sync.batchSize == 0 then 100 else c.sync.batchSize)
            && w.sync.deleteMode == (if c.sync.deleteMode == "" then "soft" else c.sync.deleteMode)
            && w.metricsAddr == (if c.metricsAddr == "" then ":8080" else c.metricsAddr)
            && w.webAddr == (if c.webAddr == "" then w.metricsAddr else c.webAddr)
            && w.logLevel == (if c.logLevel == "" then "info" else c.logLevel)
            && w.logFormat == (if c.logFormat == "" then "json" else c.logFormat)
            && w.databasePath == c.databasePath && w.webToken == c.webToken
            && w.sync.(batchSize := 0, deleteMode := "") == c.sync.(batchSize := 0, deleteMode := "")
  {
  }

  /** A source or destination with an address and no name is numbered by its place, from one; the type is "caldav" unless given. */
  lemma NamesAre(c: Settings)
    ensures var w := WithDefaults(c);
            && |w.sources| == |c.sources| && |w.destinations| == |c.destinations|
            && (forall i :: 0 <= i < |c.sources| ==>
                  var s := c.sources[i];
                  w.sources[i] == s.(name := if s.name == "" && s.url != "" then "source-" + Itoa(i + 1) else s.name,
                                     kind := if s.kind == "" then "caldav" else s.kind))
            && (forall i :: 0 <= i < |c.destinations| ==>
                  var d := c.destinations[i];
                  w.destinations[i] == d.(name := if d.name == "" && d.url != "" then "dest-" + Itoa(i + 1) else d.name,
                                          kind := if d.kind == "" then "caldav" else d.kind))
  {
  }

  // ---------------------------------------------------------------- what migration yields

  /** The positions of the sources with a nested destination, in order. */
  function NestedAt(ss: seq<SourceConfig>): seq<nat> {
    if ss == [] then []
    else
      var n := |ss| - 1;
      if HasNested(ss[n]) then NestedAt(ss[..n]) + [n] else NestedAt(ss[..n])
  }

  lemma {:induction false} NestedAtIs(ss: seq<SourceConfig>)
    ensures forall i :: 0 <= i < |NestedAt(ss)| ==> NestedAt(ss)[i] < |ss| && HasNested(ss[NestedAt(ss)[i]])
    ensures forall i, j :: 0 <= i < j < |NestedAt(ss)| ==> NestedAt(ss)[i] < NestedAt(ss)[j]
    ensures forall n :: 0 <= n < |ss| && HasNested(ss[n]) ==> n in NestedAt(ss)
  {
    if ss != [] {
      NestedAtIs(ss[..|ss| - 1]);
    }
  }

  lemma {:induction false} LiftedInOrder(ss: seq<SourceConfig>)
    ensures |LiftedAll(ss)| == |NestedAt(ss)|
    ensures forall i :: 0 <= i < |LiftedAll(ss)| ==> NestedAt(ss)[i] < |ss| && LiftedAll(ss)[i] == Lifted(ss[NestedAt(ss)[i]])
  {
    NestedAtIs(ss);
    if ss != [] {
      LiftedInOrder(ss[..|ss| - 1]);
      NestedAtIs(ss[..|ss| - 1]);
    }
  }

  /** Legacy migration yields exactly one destination per nested one, in the sources' order, each pointing to its source; sources without
      name are numbered, and nothing else changes. */
  lemma MigrationLifts(c: Settings)
    requires c.destinations == [] && exists s <- c.sources :: s.destination.name != "" || s.destination.url != ""
    ensures var m, at := Migrated(c), NestedAt(NamedAll(c.sources));
            && |m.destinations| == |at| && |m.sources| == |c.sources|
            && m == c.(sources := m.sources, destinations := m.destinations)
            && (forall i, j :: 0 <= i < j < |at| ==> at[i] < at[j])
            && (forall n :: 0 <= n < |c.sources| ==>
                  (c.sources[n].destination.name != "" || c.sources[n].destination.url != "" <==> n in at))
            && (forall n :: 0 <= n < |c.sources| ==>
                  var s := c.sources[n];
                  m.sources[n] == s.(name := if s.name == "" then "source-" + Itoa(n + 1) else s.name,
                                     destination := DestinationConfig("", "", "", "", "", "", [])))
            && (forall i :: 0 <= i < |at| ==>
                  && at[i] < |c.sources|
                  && var d := c.sources[at[i]].destination;
                  m.destinations[i] == d.(source := m.sources[at[i]].name, kind := if d.kind == "" then "caldav" else d.kind))
  {
    NestedAtIs(NamedAll(c.sources));
    LiftedInOrder(NamedAll(c.sources));
  }

  /** Otherwise migration changes nothing, but for the nested destinations beside proper ones, which go. */
  lemma MigrationSpares(c: Settings)
    requires c.destinations != [] || forall s <- c.sources :: s.destination.name == "" && s.destination.url == ""
    ensures var m := Migrated(c);
            if c.destinations == [] then m == c
            else
              && m == c.(sources := m.sources) && |m.sources| == |c.sources|
              && forall n :: 0 <= n < |c.sources| ==> m.sources[n] == c.sources[n].(destination := DestinationConfig("", "", "", "", "", "", []))
  {
  }

  /** Source `j` is the one and only source of that name. */
  ghost predicate OnlySource(ss: seq<SourceConfig>, name: string, j: nat) {
    j < |ss| && forall k :: 0 <= k < |ss| ==> (ss[k].name == name <==> k == j)
  }

  /** In an accepted configuration a destination's source name belongs to exactly one source. */
  lemma ResolvesUniquely(c: Settings, isDuration: string -> bool, i: nat)
    requires Accepted(c, isDuration) && i < |c.destinations|
    ensures exists j: nat :: OnlySource(c.sources, c.destinations[i].source, j)
  {
    assert DestOk(c.sources, c.destinations, i);
    var j: nat :| j < |c.sources| && c.sources[j].name == c.destinations[i].source;
    forall k | 0 <= k < |c.sources| && c.sources[k].name == c.destinations[i].source ensures k == j {
      assert SourceOk(c.sources, k) && SourceOk(c.sources, j);
    }
    assert OnlySource(c.sources, c.destinations[i].source, j);
  }
}
