/**
  internal/config/store.go and internal/facts/provider.go: the configuration,
  the one database row it is saved to, and the providers built from records.
  */
module ConfigStore {
  import opened Strings

  datatype SourceKind = Unset | File | Url

  datatype Source = Source(kind: SourceKind, value: string)

  datatype Email = Email(smtpHost: string, smtpPort: int, username: string, password: string, sender: string, to: string)

  /** Nanoseconds. */
  type Duration = int

  const SECOND: Duration := 1_000_000_000
  const MINUTE: Duration := 60 * SECOND

  /** Whole seconds, the fraction dropped toward zero. */
  lemma SecondsAreTruncated(d: Duration, q: int)
    ensures Truncate(d, SECOND) == q <==>
            if d >= 0 then q * SECOND <= d < (q + 1) * SECOND else (q - 1) * SECOND < d <= q * SECOND
  {
  }

  /** The Unix second of Go's zero time, January 1 of the year 1. */
  const ZERO_UNIX := -62_135_596_800

  /** timeToUnix and unixToTime, on instants in nanoseconds since 1970. */
  function TimeToUnix(ns: int): int {
    if ns == ZERO_UNIX * SECOND then 0 else ns / SECOND
  }

  function UnixToTime(sec: int): int {
    if sec == 0 then ZERO_UNIX * SECOND else sec * SECOND
  }

  /** A second of the column comes back unless it is the zero time's own, which is saved as 0. */
  lemma UnixSurvivesIff(sec: int)
    ensures TimeToUnix(UnixToTime(sec)) == sec <==> sec != ZERO_UNIX
  {
    assert (sec * SECOND) / SECOND == sec;
  }

  /** An instant comes back if it is a whole second other than 1970 itself. */
  lemma TimeSurvivesIff(ns: int)
    ensures UnixToTime(TimeToUnix(ns)) == ns <==> ns % SECOND == 0 && ns != 0
  {
    assert (ns / SECOND) * SECOND == ns <==> ns % SECOND == 0;
  }

  /** From here on that second holds nothing but the zero time. */
  type UnixSecond = sec: int | sec != ZERO_UNIX witness 0
  type Time = ns: int | ns == ZERO_UNIX * SECOND || ns / SECOND != ZERO_UNIX witness 0

  const Zero: Time := ZERO_UNIX * SECOND

  datatype Config = Config(
    source: Source, refreshInterval: Duration, webhookURL: string, email: Email,
    sourceLabel: string, sourceUpdatedAt: Time)

  const NoEmail := Email("", 0, "", "", "", "")
  const NoConfig := Config(Source(Unset, ""), 0, "", NoEmail, "", Zero)

  /** The columns of provider_config. */
  datatype Row = Row(
    sourceKind: SourceKind, sourceValue: string, refreshIntervalSeconds: int, webhookURL: string, email: Email,
    sourceLabel: string, sourceUpdatedAtUnix: UnixSecond)

  /** Go's integer division, which drops the fraction. */
  function Truncate(a: int, b: int): int
    requires b > 0
  {
    if a < 0 then -(-a / b) else a / b
  }

  function ToRow(cfg: Config): Row {
    Row(cfg.source.kind, cfg.source.value, Truncate(cfg.refreshInterval, SECOND), cfg.webhookURL, cfg.email,
        cfg.sourceLabel, TimeToUnix(cfg.sourceUpdatedAt))
  }

  function FromRow(row: Row): Config {
    Config(Source(row.sourceKind, row.sourceValue), row.refreshIntervalSeconds * SECOND, row.webhookURL, row.email,
           row.sourceLabel, UnixToTime(row.sourceUpdatedAtUnix))
  }

  /** Whole seconds, and not the one second the column keeps for "never". */
  predicate Storable(cfg: Config) {
    cfg.refreshInterval % SECOND == 0 && cfg.sourceUpdatedAt % SECOND == 0 && cfg.sourceUpdatedAt != 0
  }

  lemma ToRowOfFromRow(row: Row)
    ensures ToRow(FromRow(row)) == row
  {
    var n := row.refreshIntervalSeconds;
    assert n < 0 ==> -(n * SECOND) == (-n) * SECOND;
    assert Truncate(n * SECOND, SECOND) == n;
    UnixSurvivesIff(row.sourceUpdatedAtUnix);
  }

  /** Saving and loading keeps a configuration exactly when it is storable, and twice is as good as once. */
  lemma SaveLoadRoundTrip(cfg: Config)
    ensures FromRow(ToRow(cfg)) == cfg <==> Storable(cfg)
    ensures Storable(FromRow(ToRow(cfg)))
    ensures ToRow(FromRow(ToRow(cfg))) == ToRow(cfg)
  {
    var i := cfg.refreshInterval;
    var n := Truncate(i, SECOND);
    assert n * SECOND == i <==> i % SECOND == 0;
    assert (n * SECOND) % SECOND == 0;
    var u := TimeToUnix(cfg.sourceUpdatedAt);
    assert (u * SECOND) % SECOND == 0;
    TimeSurvivesIff(cfg.sourceUpdatedAt);
    ToRowOfFromRow(ToRow(cfg));
  }

  /** A row is the image of one storable configuration and no other. */
  lemma StorableIsDetermined(cfg: Config, row: Row)
    ensures Storable(cfg) && ToRow(cfg) == row <==> cfg == FromRow(row)
  {
    SaveLoadRoundTrip(cfg);
    ToRowOfFromRow(row);
    SaveLoadRoundTrip(FromRow(row));
  }

  class Store {
    var row: Option<Row>

    constructor ()
      ensures row == None
    {
      row := None;
    }

    /** One upsert of row 1; the database may refuse it, and then nothing changes. */
    method Save(cfg: Config, accepted: bool) returns (ok: bool)
      modifies this
      ensures ok == accepted
      ensures row == if accepted then Some(ToRow(cfg)) else old(row)
    {
      if accepted {
        row := Some(ToRow(cfg));
      }
      ok := accepted;
    }

    /** The storable configuration the row is the image of; none without a row, or if the query fails. */
    method Load(readable: bool) returns (cfg: Option<Config>, ok: bool)
      ensures ok == readable
      ensures cfg.Some? <==> readable && row.Some?
      ensures cfg.Some? ==> Storable(cfg.value) && ToRow(cfg.value) == row.value
    {
      ok := readable;
      cfg := None;
      if readable && row.Some? {
        cfg := Some(FromRow(row.value));
        StorableIsDetermined(cfg.value, row.value);
      }
    }
  }

  // ---------------------------------------------------------------------------
  // Providers
  // ---------------------------------------------------------------------------

  type Record = map<string, string>

  datatype Provider = Provider(name: string, properties: map<string, string>)

  const NoProvider := Provider("", map[])

  function FromRecord(rec: Record): Option<Provider> {
    if "name" !in rec || rec["name"] == "" then None
    else Some(Provider(rec["name"], rec - {"name"}))
  }

  predicate Accepted(p: Provider) { p.name != "" && "name" !in p.properties }

  /** A record is accepted exactly if it is a provider's properties with its name, and the provider is that one. */
  lemma FromRecordIff(rec: Record, p: Provider)
    ensures FromRecord(rec) == Some(p) <==> Accepted(p) && rec == p.properties["name" := p.name]
    ensures FromRecord(rec) == None <==> ("name" in rec ==> rec["name"] == "")
  {
    if "name" in rec {
      assert rec == (rec - {"name"})["name" := rec["name"]];
    }
    assert "name" !in p.properties ==> p.properties["name" := p.name] - {"name"} == p.properties;
  }

  /** The accepted providers are those FromRecord can return. */
  lemma AcceptedIffFromRecord(p: Provider)
    ensures Accepted(p) <==> exists rec :: FromRecord(rec) == Some(p)
  {
    if Accepted(p) {
      var rec := p.properties["name" := p.name];
      assert rec - {"name"} == p.properties;
      assert FromRecord(rec) == Some(p);
    }
  }
}
