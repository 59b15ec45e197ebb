/**
  The same handlers cut where they let go of the lock: read, load, commit, save
  and publish are separate steps of concurrent threads (internal/admin/server.go:134-168,
  internal/admin/onboarding.go:154-172, 217-229, 288-317), and the process can be
  restarted between any two of them.
  */
module AdminInterleaved {
  import opened Strings
  import opened ConfigStore
  import opened AdminServer

  datatype Publication =
    | PublishProvider(p: Provider)
    | PublishWebhook(url: string)
    | PublishEmail(e: Email)

  /**
    Where a thread stands, with its local variables.  The numbers only record: how
    often the source had been committed when a refresh read it, and which commit a
    save or publication belongs to.
    */
  datatype Thread =
    | RefreshStart
    | RefreshRead(src: Source, version: nat)
    | RefreshFailed
    | RefreshLoaded(src: Source, version: nat, p: Provider)
    | SourceReady(newSrc: Source, interval: Duration, sourceLabel: string, p: Provider)
    | WebhookReady(url: string)
    | EmailPosted(form: EmailForm)
    | EmailReady(e: Email)
    | Saving(no: nat, cfgCopy: Config, what: Publication, evenUnsaved: bool)
    | Publishing(no: nat, what: Publication)
    | Finishing
    | Done

  /** What one commit left in the admin's memory. */
  datatype Commit = Commit(cfg: Config, provider: Provider)

  const NoCommit := Commit(NoConfig, NoProvider)

  /** The copies of the admin's memory: the row, and three parts of the endpoint. */
  datatype Copy = RowCopy | ProviderCopy | WebhookCopy | EmailCopy

  /** A commit number for every copy. */
  datatype Marks = Marks(row: nat, provider: nat, webhook: nat, email: nat) {
    function Of(c: Copy): nat {
      match c
      case RowCopy => row
      case ProviderCopy => provider
      case WebhookCopy => webhook
      case EmailCopy => email
    }

    function With(c: Copy, n: nat): Marks {
      match c
      case RowCopy => this.(row := n)
      case ProviderCopy => this.(provider := n)
      case WebhookCopy => this.(webhook := n)
      case EmailCopy => this.(email := n)
    }
  }

  /**
    The shared state and the threads.  `open` holds the refreshers whose stop
    channel is open.  The last five fields only record what happened: all commits,
    for each copy the last commit that concerned it and the one it was last written
    by, how often the source was committed, and which source the admin's provider
    was loaded from.
    */
  datatype World = World(
    sys: System, threads: seq<Thread>, made: nat, open: set<nat>, current: Option<nat>,
    log: seq<Commit>, latest: Marks, written: Marks, version: nat, origin: Source)

  /** What the outside decides when a thread moves: what loads, whether a save succeeds, the time. */
  datatype Oracle = Oracle(rec: Option<Record>, saved: bool, now: Time)

  datatype Event =
    | Tick  // of a refresher, stopped or not, or the refresh button
    | SourceArrives(src: Source, interval: Duration, sourceLabel: string, rec: Option<Record>)
    | WebhookArrives(url: string)
    | EmailArrives(form: EmailForm)
    | Move(thread: nat, oracle: Oracle, addressesParse: bool)
    | Crash(readable: bool, rec: Option<Record>)

  function Spawn(w: World, t: Thread): World { w.(threads := w.threads + [t]) }

  /** startRefresherLocked */
  function Restarted(w: World): World {
    var closed := match w.current case None => w.open case Some(r) => w.open - {r};
    if LiveRefresher(w.sys.cfg).Some? then w.(open := closed + {w.made}, current := Some(w.made), made := w.made + 1)
    else w.(open := closed, current := None)
  }

  function Committed(w: World, sys: System, c: Copy): World {
    w.(sys := sys, log := w.log + [Commit(sys.cfg, sys.provider)],
       latest := w.latest.With(RowCopy, |w.log|).With(c, |w.log|))
  }

  function CopyOf(what: Publication): Copy {
    match what
    case PublishProvider(_) => ProviderCopy
    case PublishWebhook(_) => WebhookCopy
    case PublishEmail(_) => EmailCopy
  }

  function DoPublish(s: System, what: Publication): System {
    match what
    case PublishProvider(p) => Published(s, p)
    case PublishWebhook(url) => s.(endpoint := s.endpoint.(webhookURL := url))
    case PublishEmail(e) => s.(endpoint := s.endpoint.(email := e))
  }

  /** One step of a thread, from one unlock to the next: what it does to the rest, and where it is then. */
  function Effect(w: World, t: Thread, o: Oracle, addressesParse: bool): (World, Thread) {
    var s := w.sys;
    match t
    case RefreshStart => (w, RefreshRead(s.cfg.source, w.version))
    case RefreshRead(src, version) =>
      (match Loaded(o.rec)
       case None => (w, RefreshFailed)
       case Some(p) => (w, RefreshLoaded(src, version, p)))
    case RefreshFailed => (w.(sys := s.(failed := true)), Done)
    case RefreshLoaded(src, version, p) =>
      var cfg := s.cfg.(sourceUpdatedAt := o.now);
      (Committed(w, s.(provider := p, failed := false, cfg := cfg), ProviderCopy).(origin := src),
       Saving(|w.log|, cfg, PublishProvider(p), true))
    case SourceReady(src, interval, sourceLabel, p) =>
      var s' := CommitSource(s, src, interval, sourceLabel, p, o.now);
      (Restarted(Committed(w, s', ProviderCopy).(origin := src, version := w.version + 1)),
       Saving(|w.log|, s'.cfg, PublishProvider(p), false))
    case WebhookReady(url) =>
      var cfg := s.cfg.(webhookURL := url);
      (Committed(w, s.(cfg := cfg), WebhookCopy), Saving(|w.log|, cfg, PublishWebhook(url), false))
    case EmailPosted(form) =>
      (match NewEmail(form, s.cfg.email.password)
       case None => (w, Done)
       case Some(e) => (w, if ValidEmail(e, addressesParse) then EmailReady(e) else Done))
    case EmailReady(e) =>
      var cfg := s.cfg.(email := e);
      (Committed(w, s.(cfg := cfg), EmailCopy), Saving(|w.log|, cfg, PublishEmail(e), false))
    case Saving(no, cfgCopy, what, evenUnsaved) =>
      (if o.saved then w.(sys := s.(row := Some(ToRow(cfgCopy))), written := w.written.With(RowCopy, no)) else w,
       if o.saved || evenUnsaved then Publishing(no, what) else Done)
    case Publishing(no, what) =>
      (w.(sys := DoPublish(s, what), written := w.written.With(CopyOf(what), no)),
       if what.PublishProvider? then Done else Finishing)
    case Finishing => (w.(sys := s.(onboarding := false)), Done)
    case Done => (w, Done)
  }

  function Moved(w: World, id: nat, o: Oracle, addressesParse: bool): World
    requires id < |w.threads|
  {
    var (w', t) := Effect(w, w.threads[id], o, addressesParse);
    w'.(threads := w.threads[id := t])
  }

  /** A new process: all threads and refreshers are gone, the row is not, and the endpoint is fresh or restored. */
  function Booted(row: Option<Row>, readable: bool, rec: Option<Record>, w: World): World {
    var s, n := Boot(row, readable, rec), |w.log|;
    var restored := row.Some? && readable && Loaded(rec).Some?;
    var served := if restored then n else 0;
    var w' := w.(sys := s, threads := [], open := {}, current := None,
                 log := w.log + [Commit(s.cfg, s.provider)], latest := Marks(n, n, n, n),
                 written := Marks(w.written.row, served, served, if s.cfg.email.to != "" then served else 0),
                 origin := s.cfg.source);
    if restored then Restarted(w') else w'
  }

  function Next(w: World, e: Event): World {
    match e
    case Tick => Spawn(w, RefreshStart)
    case SourceArrives(src, interval, sourceLabel, rec) =>
      (match Loaded(rec)
       case None => w
       case Some(p) => Spawn(w, SourceReady(src, interval, sourceLabel, p)))
    case WebhookArrives(url) => if TrimSpace(url) == "" then Spawn(w, Finishing) else Spawn(w, WebhookReady(TrimSpace(url)))
    case EmailArrives(form) => if Blank(form) then Spawn(w, Finishing) else Spawn(w, EmailPosted(form))
    case Move(thread, oracle, addressesParse) =>
      if thread < |w.threads| then Moved(w, thread, oracle, addressesParse) else w
    case Crash(readable, rec) => Booted(w.sys.row, readable, rec, w)
  }

  /** No process yet, and a database that is empty or holds one row, saved once from some configuration. */
  function Before(seed: Option<Config>): World {
    var row := match seed case None => None case Some(c) => Some(ToRow(c));
    var first := match seed case None => NoCommit case Some(c) => Commit(c, NoProvider);
    World(System(first.cfg, NoProvider, false, None, true, row, FreshEndpoint), [], 0, {}, None,
          [NoCommit, first], Marks(1, 1, 1, 1), Marks(1, 0, 0, 0), 0, first.cfg.source)
  }

  function Start(seed: Option<Config>, readable: bool, rec: Option<Record>): World {
    Next(Before(seed), Crash(readable, rec))
  }

  function RunAll(w: World, events: seq<Event>): World {
    if events == [] then w else Next(RunAll(w, events[..|events| - 1]), events[|events| - 1])
  }

  // ---------------------------------------------------------------------------
  // What every interleaving keeps
  // ---------------------------------------------------------------------------

  ghost predicate Carries(what: Publication, a: Commit) {
    match what
    case PublishProvider(p) => p == a.provider && Accepted(p)
    case PublishWebhook(url) => url == a.cfg.webhookURL
    case PublishEmail(e) => e == a.cfg.email
  }

  ghost predicate ThreadGood(w: World, t: Thread) {
    match t
    case RefreshRead(src, version) => version <= w.version && (version == w.version ==> src == w.sys.cfg.source)
    case RefreshLoaded(src, version, p) =>
      Accepted(p) && version <= w.version && (version == w.version ==> src == w.sys.cfg.source)
    case SourceReady(_, _, _, p) => Accepted(p)
    case Saving(no, cfgCopy, what, _) =>
      0 < no < |w.log| && cfgCopy == w.log[no].cfg && Carries(what, w.log[no])
    case Publishing(no, what) => 0 < no < |w.log| && Carries(what, w.log[no])
    case _ => true
  }

  /** Two commits leave the same in a copy. */
  ghost predicate SameFor(c: Copy, a: Commit, b: Commit) {
    match c
    case RowCopy => ToRow(a.cfg) == ToRow(b.cfg)
    case ProviderCopy => a.provider == b.provider
    case WebhookCopy => a.cfg.webhookURL == b.cfg.webhookURL
    case EmailCopy => a.cfg.email == b.cfg.email
  }

  /** The copy holds what this commit left in it. */
  ghost predicate HoldsOf(s: System, c: Copy, a: Commit) {
    match c
    case RowCopy => if s.row.Some? then s.row.value == ToRow(a.cfg) else a.cfg == NoConfig
    case ProviderCopy => s.endpoint.provider == a.provider
    case WebhookCopy => s.endpoint.webhookURL == a.cfg.webhookURL
    case EmailCopy => s.endpoint.email == a.cfg.email
  }

  ghost predicate CopyLogged(w: World, c: Copy)
    requires w.log != []
  {
    && w.written.Of(c) < |w.log| && w.latest.Of(c) < |w.log|
    && HoldsOf(w.sys, c, w.log[w.written.Of(c)])
    && SameFor(c, w.log[w.latest.Of(c)], w.log[|w.log| - 1])
  }

  /** Every copy is one commit's, whole, and the memory is what the last commit left. */
  ghost predicate Logged(w: World) {
    && 1 < |w.log| && w.log[0] == NoCommit && w.log[|w.log| - 1] == Commit(w.sys.cfg, w.sys.provider)
    && 0 < w.written.row && forall c :: CopyLogged(w, c)
  }

  /** Exactly the current refresher, if any, has an open stop channel. */
  ghost predicate OneOpen(w: World) {
    && (forall r :: r in w.open <==> w.current == Some(r))
    && (w.current.Some? ==> w.current.value < w.made)
    && (w.current.Some? <==> w.sys.refresher.Some?)
  }

  /** Known-good providers, copies that are one commit's, one open refresher. */
  ghost predicate Inv(w: World) {
    && Sound(w.sys) && Logged(w) && OneOpen(w)
    && forall id :: 0 <= id < |w.threads| ==> ThreadGood(w, w.threads[id])
  }

  lemma SidesDoNotMatter(w: World, w': World)
    requires Logged(w)
    requires w'.log == w.log && w'.latest == w.latest && w'.written == w.written
    requires w'.sys == w.sys.(failed := w'.sys.failed, onboarding := w'.sys.onboarding, refresher := w'.sys.refresher)
    ensures Logged(w')
  {
    hide ToRow, NoCommit;
    forall c | true
      ensures CopyLogged(w', c)
    {
      assert CopyLogged(w, c);
    }
  }

  lemma SpawnKeepsInv(w: World, t: Thread)
    requires Inv(w) && ThreadGood(w, t)
    ensures Inv(Spawn(w, t))
  {
    var w' := Spawn(w, t);
    SidesDoNotMatter(w, w');
    hide Sound, Logged;
    forall id | 0 <= id < |w'.threads|
      ensures ThreadGood(w', w'.threads[id])
    {
      assert id < |w.threads| ==> ThreadGood(w, w.threads[id]);
    }
  }

  /** Threads stay good when only the rest of the system moves on. */
  lemma ThreadStaysGood(w: World, w': World, t: Thread)
    requires ThreadGood(w, t) && w.log <= w'.log
    requires w.version == w'.version ==> w'.sys.cfg.source == w.sys.cfg.source
    requires w.version <= w'.version
    ensures ThreadGood(w', t)
  {
  }

  lemma RestartedKeepsOneOpen(w: World)
    requires (forall r :: r in w.open <==> w.current == Some(r)) && (w.current.Some? ==> w.current.value < w.made)
    ensures var w' := Restarted(w);
            && (forall r :: r in w'.open <==> w'.current == Some(r))
            && (w'.current.Some? ==> w'.current.value < w'.made)
            && (w'.current.Some? <==> LiveRefresher(w.sys.cfg).Some?)
  {
  }

  lemma EffectOnProviders(w: World, t: Thread, o: Oracle, addressesParse: bool)
    requires Good(w.sys.provider) && Good(w.sys.endpoint.provider) && ThreadGood(w, t)
    ensures var s := Effect(w, t, o, addressesParse).0.sys;
            Good(s.provider) && Good(s.endpoint.provider)
  {
    hide ToRow, ValidEmail, NewEmail, FromRecord, LiveRefresher;
  }

  lemma EffectOnSource(w: World, t: Thread, o: Oracle, addressesParse: bool)
    ensures var s := Effect(w, t, o, addressesParse).0.sys;
            if t.SourceReady? then s.refresher == LiveRefresher(s.cfg)
            else s.refresher == w.sys.refresher && s.cfg.source == w.sys.cfg.source
                 && s.cfg.refreshInterval == w.sys.cfg.refreshInterval
  {
    hide ToRow, ValidEmail, NewEmail, FromRecord, LiveRefresher;
  }

  lemma EffectIsSound(w: World, t: Thread, o: Oracle, addressesParse: bool)
    requires Sound(w.sys) && ThreadGood(w, t)
    ensures Sound(Effect(w, t, o, addressesParse).0.sys)
  {
    EffectOnProviders(w, t, o, addressesParse);
    EffectOnSource(w, t, o, addressesParse);
    hide Effect;
  }

  /** A commit concerns the row and one more copy, and writes none. */
  lemma CommitKeepsLogged(w: World, sys: System, c: Copy)
    requires Logged(w) && sys.row == w.sys.row && sys.endpoint == w.sys.endpoint
    requires forall d :: d != RowCopy && d != c ==>
                           SameFor(d, Commit(w.sys.cfg, w.sys.provider), Commit(sys.cfg, sys.provider))
    ensures Logged(Committed(w, sys, c))
  {
    hide ToRow, NoCommit;
    var w' := Committed(w, sys, c);
    forall d | true
      ensures CopyLogged(w', d)
    {
      assert CopyLogged(w, d);
      assert w'.log[w.written.Of(d)] == w.log[w.written.Of(d)];
      assert w'.log[w.latest.Of(d)] == w.log[w.latest.Of(d)];
      if d != RowCopy && d != c {
        assert SameFor(d, w.log[|w.log| - 1], Commit(sys.cfg, sys.provider));
        assert w'.latest.Of(d) == w.latest.Of(d);
      }
    }
  }

  /** A write leaves in one copy what a logged commit says. */
  lemma WriteKeepsLogged(w: World, sys: System, c: Copy, no: nat)
    requires Logged(w) && 0 < no < |w.log| && HoldsOf(sys, c, w.log[no])
    requires sys.cfg == w.sys.cfg && sys.provider == w.sys.provider
    requires forall d, a :: d != c && HoldsOf(w.sys, d, a) ==> HoldsOf(sys, d, a)
    ensures Logged(w.(sys := sys, written := w.written.With(c, no)))
  {
    hide ToRow, NoCommit;
    var w' := w.(sys := sys, written := w.written.With(c, no));
    forall d | true
      ensures CopyLogged(w', d)
    {
      assert CopyLogged(w, d);
    }
  }

  lemma EffectKeepsLogged(w: World, t: Thread, o: Oracle, addressesParse: bool)
    requires Logged(w) && ThreadGood(w, t)
    ensures Logged(Effect(w, t, o, addressesParse).0) && w.log <= Effect(w, t, o, addressesParse).0.log
  {
    hide ToRow, ValidEmail, NewEmail, FromRecord, LiveRefresher, Logged, NoCommit;
    var s, w' := w.sys, Effect(w, t, o, addressesParse).0;
    match t {
      case RefreshLoaded(src, version, p) =>
        CommitKeepsLogged(w, s.(provider := p, failed := false, cfg := s.cfg.(sourceUpdatedAt := o.now)), ProviderCopy);
        SidesDoNotMatter(Committed(w, w'.sys, ProviderCopy), w');
      case SourceReady(src, interval, sourceLabel, p) =>
        CommitKeepsLogged(w, CommitSource(s, src, interval, sourceLabel, p, o.now), ProviderCopy);
        SidesDoNotMatter(Committed(w, w'.sys, ProviderCopy), w');
      case WebhookReady(url) => CommitKeepsLogged(w, s.(cfg := s.cfg.(webhookURL := url)), WebhookCopy);
      case EmailReady(e) => CommitKeepsLogged(w, s.(cfg := s.cfg.(email := e)), EmailCopy);
      case Saving(no, cfgCopy, what, _) =>
        if o.saved { WriteKeepsLogged(w, s.(row := Some(ToRow(cfgCopy))), RowCopy, no); }
      case Publishing(no, what) => WriteKeepsLogged(w, DoPublish(s, what), CopyOf(what), no);
      case _ => SidesDoNotMatter(w, w');
    }
  }

  lemma EffectOnThreads(w: World, t: Thread, o: Oracle, addressesParse: bool)
    requires ThreadGood(w, t) && w.log != []
    ensures var (w', t') := Effect(w, t, o, addressesParse);
            && w'.threads == w.threads && ThreadGood(w', t')
            && w.version <= w'.version && (w.version == w'.version ==> w'.sys.cfg.source == w.sys.cfg.source)
  {
    hide ToRow, ValidEmail, NewEmail, LiveRefresher;
  }

  lemma EffectKeepsOneOpen(w: World, t: Thread, o: Oracle, addressesParse: bool)
    requires OneOpen(w)
    ensures OneOpen(Effect(w, t, o, addressesParse).0)
  {
    hide ToRow, ValidEmail, NewEmail, FromRecord;
    if t.SourceReady? {
      var s' := CommitSource(w.sys, t.newSrc, t.interval, t.sourceLabel, t.p, o.now);
      RestartedKeepsOneOpen(Committed(w, s', ProviderCopy).(origin := t.newSrc, version := w.version + 1));
    }
  }

  lemma MovedKeepsInv(w: World, id: nat, o: Oracle, addressesParse: bool)
    requires Inv(w) && id < |w.threads|
    ensures Inv(Moved(w, id, o, addressesParse))
  {
    var t := w.threads[id];
    assert ThreadGood(w, t);
    EffectIsSound(w, t, o, addressesParse);
    EffectKeepsLogged(w, t, o, addressesParse);
    EffectOnThreads(w, t, o, addressesParse);
    EffectKeepsOneOpen(w, t, o, addressesParse);
    SidesDoNotMatter(Effect(w, t, o, addressesParse).0, Moved(w, id, o, addressesParse));
    hide Effect, Sound, ToRow, Logged;
    var w' := Moved(w, id, o, addressesParse);
    assert w'.threads[id] == Effect(w, t, o, addressesParse).1;
    forall n | 0 <= n < |w'.threads|
      ensures ThreadGood(w', w'.threads[n])
    {
      if n != id { ThreadStaysGood(w, w', w.threads[n]); }
      else { ThreadStaysGood(Effect(w, t, o, addressesParse).0, w', w'.threads[n]); }
    }
  }

  lemma BootedIsLogged(row: Option<Row>, readable: bool, rec: Option<Record>, w: World)
    requires Logged(w) && w.sys.row == row
    ensures Logged(Booted(row, readable, rec, w)) && w.log <= Booted(row, readable, rec, w).log
  {
    hide ToRow, FromRow, LiveRefresher;
    var s, w' := Boot(row, readable, rec), Booted(row, readable, rec, w);
    assert CopyLogged(w, RowCopy);
    assert w'.log[w.written.row] == w.log[w.written.row] && w'.log[0] == NoCommit;
    forall c | true
      ensures CopyLogged(w', c)
    {
    }
  }

  lemma BootedIsInv(row: Option<Row>, readable: bool, rec: Option<Record>, w: World)
    requires Logged(w) && w.sys.row == row
    ensures Inv(Booted(row, readable, rec, w))
  {
    BootedIsLogged(row, readable, rec, w);
    hide ToRow, FromRow, Logged;
    var s, n := Boot(row, readable, rec), |w.log|;
    var w' := Booted(row, readable, rec, w);
    RestartedKeepsOneOpen(w'.(open := {}, current := None, made := w.made));
    assert Good(s.provider);
  }

  lemma LoadedIsAccepted(rec: Option<Record>)
    ensures Loaded(rec).Some? ==> Accepted(Loaded(rec).value)
  {
  }

  lemma NextKeepsInv(w: World, e: Event)
    requires Inv(w)
    ensures Inv(Next(w, e))
  {
    match e {
      case Move(thread, oracle, addressesParse) =>
        if thread < |w.threads| { MovedKeepsInv(w, thread, oracle, addressesParse); }
      case Crash(readable, rec) => BootedIsInv(w.sys.row, readable, rec, w);
      case Tick => SpawnKeepsInv(w, RefreshStart);
      case SourceArrives(src, interval, sourceLabel, rec) =>
        LoadedIsAccepted(rec);
        if Loaded(rec).Some? { SpawnKeepsInv(w, SourceReady(src, interval, sourceLabel, Loaded(rec).value)); }
      case WebhookArrives(url) =>
        SpawnKeepsInv(w, Finishing);
        SpawnKeepsInv(w, WebhookReady(TrimSpace(url)));
      case EmailArrives(form) =>
        SpawnKeepsInv(w, Finishing);
        SpawnKeepsInv(w, EmailPosted(form));
    }
  }

  lemma StartIsInv(seed: Option<Config>, readable: bool, rec: Option<Record>)
    ensures Inv(Start(seed, readable, rec))
  {
    hide ToRow, FromRow, Inv, Booted;
    var w := Before(seed);
    forall c | true ensures CopyLogged(w, c) { }
    BootedIsInv(w.sys.row, readable, rec, w);
  }

  lemma {:induction false} RunKeepsInv(w: World, events: seq<Event>)
    requires Inv(w)
    ensures Inv(RunAll(w, events))
    decreases |events|
  {
    hide Inv, Next;
    if events != [] {
      RunKeepsInv(w, events[..|events| - 1]);
      NextKeepsInv(RunAll(w, events[..|events| - 1]), events[|events| - 1]);
    }
  }

  /** The configuration the admin held after some of the events. */
  ghost predicate IsPast(start: World, events: seq<Event>, cfg: Config) {
    exists n :: 0 <= n <= |events| && RunAll(start, events[..n]).sys.cfg == cfg
  }

  lemma NextLogs(w: World, e: Event)
    ensures Next(w, e).log == w.log || Next(w, e).log == w.log + [Commit(Next(w, e).sys.cfg, Next(w, e).sys.provider)]
  {
    hide ToRow, FromRow, NewEmail, ValidEmail, Blank, TrimSpace, FromRecord, LiveRefresher;
  }

  lemma {:induction false} LogGrows(start: World, events: seq<Event>)
    ensures |start.log| <= |RunAll(start, events).log|
    decreases |events|
  {
    hide Next;
    if events != [] {
      NextLogs(RunAll(start, events[..|events| - 1]), events[|events| - 1]);
      LogGrows(start, events[..|events| - 1]);
    }
  }

  /** What is logged in a run has been in the admin's memory in that run. */
  lemma {:induction false} LogIsPast(start: World, events: seq<Event>, i: nat)
    requires i < |RunAll(start, events).log|
    ensures if i < |start.log| then RunAll(start, events).log[i] == start.log[i]
            else IsPast(start, events, RunAll(start, events).log[i].cfg)
    decreases |events|
  {
    hide Next;
    if events != [] {
      var front, w := events[..|events| - 1], RunAll(start, events);
      NextLogs(RunAll(start, front), events[|events| - 1]);
      if i < |RunAll(start, front).log| {
        LogIsPast(start, front, i);
        if i >= |start.log| {
          var n :| 0 <= n <= |front| && RunAll(start, front[..n]).sys.cfg == w.log[i].cfg;
          assert events[..n] == front[..n];
        }
      } else {
        LogGrows(start, front);
        assert events[..|events|] == events;
      }
    }
  }

  /** Served providers are empty or accepted; the row is a configuration of the run or the first one, never a mix. */
  lemma {:induction false} KnownGoodInEveryInterleaving(seed: Option<Config>, readable: bool,
                                                        rec: Option<Record>, events: seq<Event>)
    ensures var w, start := RunAll(Start(seed, readable, rec), events), Start(seed, readable, rec);
            && Good(w.sys.provider) && Good(w.sys.endpoint.provider)
            && (w.sys.row.Some? ==>
                  || (seed.Some? && w.sys.row.value == ToRow(seed.value))
                  || exists cfg :: IsPast(start, events, cfg) && w.sys.row.value == ToRow(cfg))
  {
    var start := Start(seed, readable, rec);
    var w := RunAll(start, events);
    StartIsInv(seed, readable, rec);
    RunKeepsInv(start, events);
    assert CopyLogged(w, RowCopy);
    assert Good(w.sys.provider) && Good(w.sys.endpoint.provider);
    var i := w.written.row;
    StartsFromSeed(seed, readable, rec);
    hide Start, RunAll, IsPast, ToRow;
    LogIsPast(start, events, i);
    if i == 2 { IsPastAtStart(start, events); }
    if i == 1 && seed.None? { IsPastAtStart(start, events); }
  }

  lemma StartsFromSeed(seed: Option<Config>, readable: bool, rec: Option<Record>)
    ensures var log := Start(seed, readable, rec).log;
            && |log| == 3 && log[1].cfg == (if seed.Some? then seed.value else NoConfig)
            && log[2].cfg == Start(seed, readable, rec).sys.cfg
            && (seed.None? ==> log[2].cfg == NoConfig)
  {
    hide ToRow, FromRow, LiveRefresher;
  }

  lemma IsPastAtStart(start: World, events: seq<Event>)
    ensures IsPast(start, events, start.sys.cfg)
  {
    assert events[..0] == [] && RunAll(start, events[..0]) == start;
  }

  /** One stop channel at most is open, and then the source is a link with a positive interval. */
  lemma {:induction false} OneLiveRefresher(seed: Option<Config>, readable: bool,
                                            rec: Option<Record>, events: seq<Event>)
    ensures var w := RunAll(Start(seed, readable, rec), events);
            && (forall r, q :: r in w.open && q in w.open ==> r == q)
            && (w.open != {} ==> w.sys.cfg.source.kind == Url && w.sys.cfg.refreshInterval > 0)
  {
    StartIsInv(seed, readable, rec);
    RunKeepsInv(Start(seed, readable, rec), events);
    var w := RunAll(Start(seed, readable, rec), events);
    if w.open != {} {
      var r :| r in w.open;
      assert w.sys.refresher == LiveRefresher(w.sys.cfg);
    }
  }

  /** Committing a source opens a stop channel exactly for a link with a positive interval. */
  lemma SourceCommitSetsRefresher(w: World, id: nat, o: Oracle)
    requires Inv(w) && id < |w.threads| && w.threads[id].SourceReady?
    ensures var w' := Moved(w, id, o, false);
            w'.open != {} <==> w'.sys.cfg.source.kind == Url && w'.sys.cfg.refreshInterval > 0
  {
    hide Sound, ToRow, ThreadGood;
    var t := w.threads[id];
    var s' := CommitSource(w.sys, t.newSrc, t.interval, t.sourceLabel, t.p, o.now);
    var mid := Committed(w, s', ProviderCopy).(origin := t.newSrc, version := w.version + 1);
    RestartedKeepsOneOpen(mid);
    assert Restarted(mid).current.Some? ==> Restarted(mid).current.value in Restarted(mid).open;
  }

  /** A load that fails is remembered as failed, and nothing else changes. */
  lemma FailedLoadChangesNothing(w: World, id: nat, o: Oracle, o': Oracle)
    requires id < |w.threads| && w.threads[id].RefreshRead? && Loaded(o.rec) == None
    ensures var w' := Moved(Moved(w, id, o, false), id, o', false);
            w'.sys == w.sys.(failed := true) && w'.threads == w.threads[id := Done] && w'.open == w.open
  {
  }

  // ---------------------------------------------------------------------------
  // Uninterrupted threads are the handlers
  // ---------------------------------------------------------------------------

  function Moves(w: World, id: nat, n: nat, o: Oracle, addressesParse: bool): World
    requires id < |w.threads|
    ensures |Moves(w, id, n, o, addressesParse).threads| == |w.threads|
    decreases n
  {
    if n == 0 then w else Moves(Moved(w, id, o, addressesParse), id, n - 1, o, addressesParse)
  }

  lemma RefreshUninterrupted(w: World, id: nat, o: Oracle)
    requires id < |w.threads| && w.threads[id] == RefreshStart
    ensures var w' := Moves(w, id, 5, o, false);
            w'.sys == AfterRefresh(w.sys, o.rec, o.now, o.saved) && w'.threads[id] == Done
  {
    hide ToRow, FromRecord;
    var w1 := Moved(w, id, o, false);
    var w2 := Moved(w1, id, o, false);
    var w3 := Moved(w2, id, o, false);
    var w4 := Moved(w3, id, o, false);
    assert Moves(w, id, 5, o, false) == Moves(w1, id, 4, o, false) == Moves(w2, id, 3, o, false);
    assert Moves(w2, id, 3, o, false) == Moves(w3, id, 2, o, false) == Moves(w4, id, 1, o, false);
  }

  lemma SourceUninterrupted(w: World, id: nat, op: Op)
    requires op.PostSource? && AcceptsSource(op) && id < |w.threads|
    requires w.threads[id] == SourceReady(NewSource(op.form), NewInterval(op.form), NewLabel(op.form), Loaded(op.rec).value)
    ensures var w' := Moves(w, id, 3, Oracle(op.rec, op.saved, op.now), false);
            w'.sys == AfterSource(w.sys, op) && w'.threads[id] == Done
  {
    hide ToRow, FromRecord, NewSource, NewInterval, NewLabel, LiveRefresher;
    var o := Oracle(op.rec, op.saved, op.now);
    var w1 := Moved(w, id, o, false);
    var w2 := Moved(w1, id, o, false);
    assert Moves(w, id, 3, o, false) == Moves(w1, id, 2, o, false) == Moves(w2, id, 1, o, false);
  }

  lemma WebhookUninterrupted(w: World, id: nat, op: Op, o: Oracle)
    requires op.PostWebhook? && TrimSpace(op.url) != "" && op.urlValid && o.saved == op.saved
    requires id < |w.threads| && w.threads[id] == WebhookReady(TrimSpace(op.url))
    ensures var w' := Moves(w, id, 4, o, false);
            w'.sys == AfterWebhook(w.sys, op) && w'.threads[id] == Done
  {
    hide ToRow, TrimSpace;
    var w1 := Moved(w, id, o, false);
    var w2 := Moved(w1, id, o, false);
    var w3 := Moved(w2, id, o, false);
    assert Moves(w, id, 4, o, false) == Moves(w1, id, 3, o, false) == Moves(w2, id, 2, o, false)
           == Moves(w3, id, 1, o, false);
  }

  lemma {:induction false} DoneStaysDone(w: World, id: nat, n: nat, o: Oracle, addressesParse: bool)
    requires id < |w.threads| && w.threads[id] == Done
    ensures Moves(w, id, n, o, addressesParse) == w
    decreases n
  {
    if n > 0 {
      assert w.threads[id := Done] == w.threads;
      DoneStaysDone(w, id, n - 1, o, addressesParse);
    }
  }

  lemma AcceptedEmailUninterrupted(w: World, id: nat, o: Oracle, e: Email)
    requires id < |w.threads| && w.threads[id] == EmailReady(e)
    ensures var w', committed := Moves(w, id, 4, o, true), w.sys.(cfg := w.sys.cfg.(email := e));
            && w'.threads[id] == Done
            && w'.sys == if !o.saved then committed else
                           Saved(committed, true).(endpoint := committed.endpoint.(email := e), onboarding := false)
  {
    hide ToRow;
    var w1 := Moved(w, id, o, true);
    var w2 := Moved(w1, id, o, true);
    if !o.saved {
      DoneStaysDone(w2, id, 2, o, true);
    }
    var w3 := Moved(w2, id, o, true);
    assert Moves(w, id, 4, o, true) == Moves(w1, id, 3, o, true) == Moves(w2, id, 2, o, true) == Moves(w3, id, 1, o, true);
  }

  lemma EmailUninterrupted(w: World, id: nat, op: Op, o: Oracle)
    requires op.PostEmail? && !Blank(op.emailForm) && o.saved == op.saved
    requires id < |w.threads| && w.threads[id] == EmailPosted(op.emailForm)
    ensures var w' := Moves(w, id, 5, o, op.addressesParse);
            w'.sys == AfterEmail(w.sys, op) && w'.threads[id] == Done
  {
    hide ToRow, NewEmail, Blank;
    var w1 := Moved(w, id, o, op.addressesParse);
    assert Moves(w, id, 5, o, op.addressesParse) == Moves(w1, id, 4, o, op.addressesParse);
    if w1.threads[id] == Done {
      DoneStaysDone(w1, id, 4, o, op.addressesParse);
    } else {
      AcceptedEmailUninterrupted(w1, id, o, w1.threads[id].e);
    }
  }

  /** A blank address or an empty form arrives and finishes in one step, as the handlers do. */
  lemma EmptyPostsUninterrupted(w: World, url: string, form: EmailForm, urlValid: bool, addressesParse: bool, o: Oracle)
    ensures AllSpace(url) ==>
              Moves(Next(w, WebhookArrives(url)), |w.threads|, 1, o, addressesParse).sys
              == AfterWebhook(w.sys, PostWebhook(url, urlValid, o.saved))
    ensures Blank(form) ==>
              Moves(Next(w, EmailArrives(form)), |w.threads|, 1, o, addressesParse).sys
              == AfterEmail(w.sys, PostEmail(form, addressesParse, o.saved))
  {
    EmptyIffAllSpace(url);
    hide ToRow, NewEmail, Blank, TrimSpace, AllSpace;
    var done := w.(threads := w.threads + [Finishing]);
    assert Moves(done, |w.threads|, 1, o, addressesParse) == Moved(done, |w.threads|, o, addressesParse);
  }
}
