/**
  The admin server with handlers that do not overlap: internal/admin/server.go
  and internal/admin/onboarding.go, together with the endpoint they publish to
  (internal/endpoint/server.go:53-73) and the database row.  What lies outside,
  loading a source, saving, the clock and address checks, comes in as a parameter.
  */
module AdminServer {
  import opened Strings
  import opened ConfigStore

  datatype Endpoint = Endpoint(provider: Provider, webhookURL: string, email: Email)

  const FreshEndpoint := Endpoint(NoProvider, "", NoEmail)

  /** refresher is the interval of the live one. */
  datatype System = System(
    cfg: Config, provider: Provider, failed: bool, refresher: Option<Duration>, onboarding: bool,
    row: Option<Row>, endpoint: Endpoint)

  /** What loading a source comes to: the record read, if any, and what FromRecord makes of it. */
  function Loaded(rec: Option<Record>): Option<Provider> {
    match rec
    case None => None
    case Some(r) => FromRecord(r)
  }

  function LiveRefresher(cfg: Config): Option<Duration> {
    if cfg.source.kind == Url && cfg.refreshInterval > 0 then Some(cfg.refreshInterval) else None
  }

  // ---------------------------------------------------------------------------
  // The forms
  // ---------------------------------------------------------------------------

  /**
    The source form: an uploaded file with the path it is saved to, a link and
    what NormalizeSourceURL makes of it, and the minutes field as typed.
    */
  datatype SourceForm = SourceForm(
    file: Option<string>, fileName: string, url: string, normalizedURL: string, refreshMinutes: string)

  function Minutes(raw: string): nat {
    match Atoi(TrimSpace(raw))
    case None => 0
    case Some(n) => if n < 0 then 0 else n
  }

  /** Exactly one of file and link. */
  predicate Choosable(form: SourceForm) {
    form.file.Some? != (TrimSpace(form.url) != "")
  }

  function NewSource(form: SourceForm): Source
    requires Choosable(form)
  {
    if form.file.Some? then Source(File, form.file.value) else Source(Url, form.normalizedURL)
  }

  function NewInterval(form: SourceForm): Duration {
    if form.file.Some? then 0 else Minutes(form.refreshMinutes) * MINUTE
  }

  function NewLabel(form: SourceForm): string {
    if form.file.Some? then form.fileName else TrimSpace(form.url)
  }

  datatype EmailForm = EmailForm(host: string, port: string, username: string, password: string, sender: string, to: string)

  predicate Blank(form: EmailForm) {
    TrimSpace(form.host) == TrimSpace(form.port) == TrimSpace(form.username) == form.password
    == TrimSpace(form.sender) == TrimSpace(form.to) == ""
  }

  /** The new settings, if the port is a number; an empty password keeps the old one. */
  function NewEmail(form: EmailForm, oldPassword: string): Option<Email> {
    match Atoi(TrimSpace(form.port))
    case None => None
    case Some(port) =>
      Some(Email(TrimSpace(form.host), port, TrimSpace(form.username),
                 if form.password == "" then oldPassword else form.password,
                 TrimSpace(form.sender), TrimSpace(form.to)))
  }

  /** email.Config.Validate; whether non-empty addresses parse is up to net/mail. */
  predicate ValidEmail(e: Email, addressesParse: bool) {
    e.smtpHost != "" && 0 < e.smtpPort <= 65535 && e.sender != "" && e.to != "" && addressesParse
  }

  // ---------------------------------------------------------------------------
  // One handler at a time
  // ---------------------------------------------------------------------------

  datatype Op =
    | PostSource(form: SourceForm, urlValid: bool, rec: Option<Record>, written: bool, now: Time, saved: bool)
    | PostWebhook(url: string, urlValid: bool, saved: bool)
    | PostEmail(emailForm: EmailForm, addressesParse: bool, saved: bool)
    | Refresh(rec: Option<Record>, now: Time, saved: bool)
    | Skip
    | Restart(readable: bool, rec: Option<Record>)

  /** The form is accepted: one source, which loads, and an upload that could be stored. */
  predicate AcceptsSource(op: Op)
    requires op.PostSource?
  {
    && Choosable(op.form) && Loaded(op.rec).Some?
    && (if op.form.file.Some? then op.written else op.urlValid)
  }

  function Saved(s: System, ok: bool): System {
    if ok then s.(row := Some(ToRow(s.cfg))) else s
  }

  function CommitSource(s: System, src: Source, interval: Duration, sourceLabel: string, p: Provider, now: Time): System {
    var cfg := s.cfg.(source := src, refreshInterval := interval, sourceLabel := sourceLabel, sourceUpdatedAt := now);
    s.(cfg := cfg, provider := p, failed := false, refresher := LiveRefresher(cfg))
  }

  function Published(s: System, p: Provider): System { s.(endpoint := s.endpoint.(provider := p)) }

  function AfterSource(s: System, op: Op): System
    requires op.PostSource?
  {
    if !AcceptsSource(op) then s else
      var p := Loaded(op.rec).value;
      var committed := CommitSource(s, NewSource(op.form), NewInterval(op.form), NewLabel(op.form), p, op.now);
      if op.saved then Published(Saved(committed, true), p) else committed
  }

  function AfterWebhook(s: System, op: Op): System
    requires op.PostWebhook?
  {
    var url := TrimSpace(op.url);
    if url == "" then s.(onboarding := false)
    else if !op.urlValid then s
    else
      var committed := s.(cfg := s.cfg.(webhookURL := url));
      if !op.saved then committed else
        Saved(committed, true).(endpoint := s.endpoint.(webhookURL := url), onboarding := false)
  }

  function AfterEmail(s: System, op: Op): System
    requires op.PostEmail?
  {
    if Blank(op.emailForm) then s.(onboarding := false) else
      match NewEmail(op.emailForm, s.cfg.email.password)
      case None => s
      case Some(e) =>
        if !ValidEmail(e, op.addressesParse) then s else
          var committed := s.(cfg := s.cfg.(email := e));
          if !op.saved then committed else
            Saved(committed, true).(endpoint := s.endpoint.(email := e), onboarding := false)
  }

  /** A failed load only leaves its mark; a failed save of the time stamp does not stop the publication. */
  function AfterRefresh(s: System, rec: Option<Record>, now: Time, saved: bool): System {
    match Loaded(rec)
    case None => s.(failed := true)
    case Some(p) =>
      var committed := s.(provider := p, failed := false, cfg := s.cfg.(sourceUpdatedAt := now));
      Published(Saved(committed, saved), p)
  }

  /** New, and restore if a row can be read; a database that cannot be read is taken for an empty one. */
  function Boot(row: Option<Row>, readable: bool, rec: Option<Record>): System {
    if row.None? || !readable then System(NoConfig, NoProvider, false, None, true, row, FreshEndpoint) else
      var cfg := FromRow(row.value);
      match Loaded(rec)
      case None => System(cfg, NoProvider, true, None, false, row, FreshEndpoint)
      case Some(p) =>
        System(cfg, p, false, LiveRefresher(cfg), false, row,
               Endpoint(p, cfg.webhookURL, if cfg.email.to != "" then cfg.email else NoEmail))
  }

  function Step(s: System, op: Op): System {
    match op
    case PostSource(_, _, _, _, _, _) => AfterSource(s, op)
    case PostWebhook(_, _, _) => AfterWebhook(s, op)
    case PostEmail(_, _, _) => AfterEmail(s, op)
    case Refresh(rec, now, saved) => AfterRefresh(s, rec, now, saved)
    case Skip => s.(onboarding := false)
    case Restart(readable, rec) => Boot(s.row, readable, rec)
  }

  function Run(s: System, ops: seq<Op>): System {
    if ops == [] then s else Step(Run(s, ops[..|ops| - 1]), ops[|ops| - 1])
  }

  // ---------------------------------------------------------------------------
  // The three copies agree
  // ---------------------------------------------------------------------------

  ghost predicate Agree(s: System) {
    && s.endpoint == Endpoint(s.provider, s.cfg.webhookURL, s.cfg.email)
    && (s.row == Some(ToRow(s.cfg)) || (s.row == None && s.cfg == NoConfig))
  }

  /**
    A new process agrees with the row it finds: there is none; or it reads none and
    the row says nothing; or without a source there is nothing else to publish; or
    with one there are no e-mail settings without a recipient, which it would skip.
    */
  predicate Restorable(row: Option<Row>, readable: bool, rec: Option<Record>) {
    row.Some? ==>
      var r := row.value;
      if !readable then r == ToRow(NoConfig)
      else if Loaded(rec).None? then r.webhookURL == "" && r.email == NoEmail
      else r.email == NoEmail || r.email.to != ""
  }

  /** What the operation may do to a system in agreement without parting it, told before it runs. */
  predicate Harmless(s: System, op: Op) {
    match op
    case PostSource(form, _, rec, _, now, saved) =>
      AcceptsSource(op) && !saved ==>
        && s.row.Some? && Loaded(rec).value == s.provider
        && NewSource(form) == s.cfg.source && NewLabel(form) == s.cfg.sourceLabel
        && Truncate(NewInterval(form), SECOND) == Truncate(s.cfg.refreshInterval, SECOND)
        && TimeToUnix(now) == TimeToUnix(s.cfg.sourceUpdatedAt)
    case PostWebhook(url, urlValid, saved) =>
      TrimSpace(url) != "" && urlValid && !saved ==> TrimSpace(url) == s.cfg.webhookURL
    case PostEmail(form, addressesParse, saved) =>
      var e := NewEmail(form, s.cfg.email.password);
      !Blank(form) && e.Some? && ValidEmail(e.value, addressesParse) && !saved ==> e.value == s.cfg.email
    case Refresh(rec, now, saved) =>
      Loaded(rec).Some? && !saved ==>
        if s.row.Some? then TimeToUnix(now) == TimeToUnix(s.cfg.sourceUpdatedAt) else now == Zero
    case Skip => true
    case Restart(readable, rec) => Restorable(s.row, readable, rec)
  }

  lemma BootAgreesIff(row: Option<Row>, readable: bool, rec: Option<Record>)
    ensures Agree(Boot(row, readable, rec)) <==> Restorable(row, readable, rec)
    ensures Boot(row, readable, rec).row == row
  {
    if row.Some? { ToRowOfFromRow(row.value); }
  }

  lemma SourceAgreesIff(s: System, op: Op)
    requires Agree(s) && op.PostSource?
    ensures Agree(Step(s, op)) <==> Harmless(s, op)
  {
    hide NewInterval, NewLabel, Truncate, TimeToUnix, FromRecord, LiveRefresher;
    if AcceptsSource(op) && s.row.None? {
      assert NewSource(op.form) != NoConfig.source;
    }
  }

  /** One operation keeps agreement exactly if it is harmless. */
  lemma StepAgreesIff(s: System, op: Op)
    requires Agree(s)
    ensures Agree(Step(s, op)) <==> Harmless(s, op)
  {
    hide Atoi, TrimSpace, Truncate, TimeToUnix, NewEmail, FromRecord, Boot, Restorable, AfterSource;
    match op {
      case Restart(readable, rec) => BootAgreesIff(s.row, readable, rec);
      case PostSource(_, _, _, _, _, _) => SourceAgreesIff(s, op);
      case _ =>
    }
  }

  ghost predicate AgreeThroughout(s: System, ops: seq<Op>) {
    forall n :: 0 <= n <= |ops| ==> Agree(Run(s, ops[..n]))
  }

  ghost predicate AllHarmless(s: System, ops: seq<Op>) {
    forall n :: 0 <= n < |ops| ==> Harmless(Run(s, ops[..n]), ops[n])
  }

  lemma {:induction false} HarmlessRunsAgree(s: System, ops: seq<Op>)
    requires Agree(s)
    ensures AgreeThroughout(s, ops) <==> AllHarmless(s, ops)
    decreases |ops|
  {
    hide Agree, Harmless, Step;
    assert ops[..|ops|] == ops;
    if ops == [] {
      assert forall n :: 0 <= n <= |ops| ==> Run(s, ops[..n]) == s;
    } else {
      var front, op := ops[..|ops| - 1], ops[|ops| - 1];
      assert forall n :: 0 <= n <= |front| ==> ops[..n] == front[..n];
      assert front[..|front|] == front;
      HarmlessRunsAgree(s, front);
      assert AgreeThroughout(s, ops) <==> AgreeThroughout(s, front) && Agree(Step(Run(s, front), op)) by {
        assert Run(s, ops) == Step(Run(s, front), op);
        if AgreeThroughout(s, ops) {
          assert Agree(Run(s, ops[..|ops|]));
          forall n | 0 <= n <= |front| ensures Agree(Run(s, front[..n])) {
            assert Agree(Run(s, ops[..n]));
          }
        }
      }
      assert AllHarmless(s, ops) <==> AllHarmless(s, front) && Harmless(Run(s, front), op) by {
        if AllHarmless(s, ops) {
          assert Harmless(Run(s, ops[..|front|]), ops[|front|]);
          forall n | 0 <= n < |front| ensures Harmless(Run(s, front[..n]), front[n]) {
            assert Harmless(Run(s, ops[..n]), ops[n]);
          }
        }
      }
      if AgreeThroughout(s, front) {
        assert Agree(Run(s, front[..|front|]));
        StepAgreesIff(Run(s, front), op);
      }
    }
  }

  /** Over any run, failures included: all copies agree after every step exactly if every step is harmless. */
  lemma {:induction false} AgreeThroughoutIff(row: Option<Row>, readable: bool, rec: Option<Record>, ops: seq<Op>)
    ensures var s := Boot(row, readable, rec);
            AgreeThroughout(s, ops) <==> Restorable(row, readable, rec) && AllHarmless(s, ops)
  {
    hide Agree, Harmless, Boot, Restorable;
    var s := Boot(row, readable, rec);
    BootAgreesIff(row, readable, rec);
    if Agree(s) {
      HarmlessRunsAgree(s, ops);
    } else {
      assert ops[..0] == [] && Run(s, ops[..0]) == s;
    }
  }

  /** Saves succeed, and a restart can read a row and its source. */
  ghost predicate Lucky(s: System, op: Op) {
    match op
    case PostSource(_, _, _, _, _, saved) => saved
    case PostWebhook(_, _, saved) => saved
    case PostEmail(_, _, saved) => saved
    case Refresh(_, _, saved) => saved
    case Skip => true
    case Restart(readable, rec) => s.row.Some? ==> readable && Loaded(rec).Some?
  }

  ghost predicate AllLucky(s: System, ops: seq<Op>) {
    forall n :: 0 <= n < |ops| ==> Lucky(Run(s, ops[..n]), ops[n])
  }

  /** No e-mail settings without a recipient. */
  ghost predicate Republishable(row: Option<Row>) {
    row.Some? ==> row.value.email == NoEmail || row.value.email.to != ""
  }

  /** The handlers never save such settings, so luck is enough. */
  lemma LuckyIsHarmless(s: System, op: Op)
    requires Agree(s) && Republishable(s.row) && Lucky(s, op)
    ensures Harmless(s, op) && Agree(Step(s, op)) && Republishable(Step(s, op).row)
  {
    StepAgreesIff(s, op);
    hide Atoi, TrimSpace, Truncate, TimeToUnix, FromRecord;
  }

  lemma {:induction false} LuckyRunsAgree(s: System, ops: seq<Op>)
    requires Agree(s) && Republishable(s.row) && AllLucky(s, ops)
    ensures Agree(Run(s, ops)) && Republishable(Run(s, ops).row)
    decreases |ops|
  {
    hide Agree, Step, Lucky, Republishable;
    if ops != [] {
      var front := ops[..|ops| - 1];
      assert forall n :: 0 <= n < |front| ==> ops[..n] == front[..n];
      LuckyRunsAgree(s, front);
      assert Lucky(Run(s, ops[..|ops| - 1]), ops[|ops| - 1]);
      LuckyIsHarmless(Run(s, front), ops[|ops| - 1]);
    }
  }

  /** From any start with a readable source, lucky runs keep admin, endpoint and row in agreement. */
  lemma {:induction false} ReplicasAgree(row: Option<Row>, readable: bool, rec: Option<Record>, ops: seq<Op>)
    requires Republishable(row) && (row.Some? ==> readable && Loaded(rec).Some?)
    requires AllLucky(Boot(row, readable, rec), ops)
    ensures Agree(Run(Boot(row, readable, rec), ops))
  {
    hide Agree, Boot, AllLucky;
    BootAgreesIff(row, readable, rec);
    LuckyRunsAgree(Boot(row, readable, rec), ops);
  }

  // ---------------------------------------------------------------------------
  // What the admin page shows: the last load's failure, and the onboarding
  // ---------------------------------------------------------------------------

  predicate HasName(rec: Option<Record>) { rec.Some? && "name" in rec.value && rec.value["name"] != "" }

  function ProviderIn(rec: Option<Record>): Provider
    requires HasName(rec)
  {
    Provider(rec.value["name"], rec.value - {"name"})
  }

  lemma LoadedIff(rec: Option<Record>)
    ensures if HasName(rec) then Loaded(rec) == Some(ProviderIn(rec)) else Loaded(rec) == None
  {
  }

  /** The last load, in a refresh, an accepted source or a restart with a row to read, gave no provider. */
  predicate LastLoadFailed(first: bool, start: System, ops: seq<Op>) {
    if ops == [] then first else
      var front, op := ops[..|ops| - 1], ops[|ops| - 1];
      match op
      case Refresh(rec, _, _) => !HasName(rec)
      case Restart(readable, rec) => Run(start, front).row.Some? && readable && !HasName(rec)
      case PostSource(_, _, _, _, _, _) => !AcceptsSource(op) && LastLoadFailed(first, start, front)
      case _ => LastLoadFailed(first, start, front)
  }

  /** Over any run an error is kept exactly if the last load failed; a restart loads only if it read a row. */
  lemma {:induction false} ErrorShownIff(row: Option<Row>, readable: bool, rec: Option<Record>, ops: seq<Op>)
    ensures Run(Boot(row, readable, rec), ops).failed <==>
            LastLoadFailed(row.Some? && readable && !HasName(rec), Boot(row, readable, rec), ops)
    decreases |ops|
  {
    LoadedIff(rec);
    hide HasName, AcceptsSource, TrimSpace, Atoi, ToRow, FromRow, LiveRefresher;
    if ops != [] {
      var front, op := ops[..|ops| - 1], ops[|ops| - 1];
      ErrorShownIff(row, readable, rec, front);
      if op.Refresh? || op.Restart? { LoadedIff(op.rec); }
      hide Loaded;
    }
  }

  /** The operation ends the onboarding: a skip, an empty form, or a saved address or settings. */
  predicate Finishes(s: System, op: Op) {
    match op
    case PostWebhook(url, urlValid, saved) => AllSpace(url) || (urlValid && saved)
    case PostEmail(form, addressesParse, saved) =>
      var e := NewEmail(form, s.cfg.email.password);
      Blank(form) || (e.Some? && ValidEmail(e.value, addressesParse) && saved)
    case Skip => true
    case _ => false
  }

  /** The last start found no row it could read, and nothing has finished the onboarding since. */
  predicate StillOnboarding(initially: bool, start: System, ops: seq<Op>) {
    if ops == [] then initially else
      var front, op := ops[..|ops| - 1], ops[|ops| - 1];
      if op.Restart? then Run(start, front).row.None? || !op.readable
      else !Finishes(Run(start, front), op) && StillOnboarding(initially, start, front)
  }

  lemma {:induction false} OnboardingIff(row: Option<Row>, readable: bool, rec: Option<Record>, ops: seq<Op>)
    ensures Run(Boot(row, readable, rec), ops).onboarding <==>
            StillOnboarding(row.None? || !readable, Boot(row, readable, rec), ops)
    decreases |ops|
  {
    hide FromRecord, AcceptsSource, TrimSpace, Atoi, ToRow, FromRow, LiveRefresher, AllSpace, NewEmail, Blank;
    if ops != [] {
      var front, op := ops[..|ops| - 1], ops[|ops| - 1];
      OnboardingIff(row, readable, rec, front);
      if op.PostWebhook? { EmptyIffAllSpace(op.url); }
    }
  }

  // ---------------------------------------------------------------------------
  // Known-good data and the refresher, in every run
  // ---------------------------------------------------------------------------

  ghost predicate Good(p: Provider) { p == NoProvider || Accepted(p) }

  ghost predicate Sound(s: System) {
    && Good(s.provider) && Good(s.endpoint.provider)
    && (s.refresher == None || s.refresher == LiveRefresher(s.cfg))
  }

  lemma StepIsSound(s: System, op: Op)
    requires Sound(s)
    ensures Sound(Step(s, op))
    ensures op.PostSource? && AcceptsSource(op) ==> Step(s, op).refresher == LiveRefresher(Step(s, op).cfg)
    ensures op.Refresh? && Loaded(op.rec) == None ==> Step(s, op) == s.(failed := true)
  {
    hide Atoi, TrimSpace;
  }

  lemma {:induction false} RunsAreSound(row: Option<Row>, readable: bool, rec: Option<Record>, ops: seq<Op>)
    ensures Sound(Run(Boot(row, readable, rec), ops))
    decreases |ops|
  {
    if ops != [] {
      RunsAreSound(row, readable, rec, ops[..|ops| - 1]);
      StepIsSound(Run(Boot(row, readable, rec), ops[..|ops| - 1]), ops[|ops| - 1]);
    }
  }

  // ---------------------------------------------------------------------------
  // What is typed is what is stored
  // ---------------------------------------------------------------------------

  /** The text with white space around it. */
  ghost predicate IsPadded(raw: string, text: string) {
    Trimmed(text) && exists left, right :: Pads(raw, left, text, right)
  }

  predicate Pads(raw: string, left: string, text: string, right: string) {
    raw == left + (text + right) && AllSpace(left) && AllSpace(right)
  }

  lemma PaddedIsRead(raw: string, text: string)
    requires IsPadded(raw, text)
    ensures TrimSpace(raw) == text
  {
    var left, right :| Pads(raw, left, text, right);
    PaddingTrimmed(left, text, right);
  }

  lemma NumberIsRead(raw: string, n: nat)
    requires IsPadded(raw, Itoa(n))
    ensures Atoi(TrimSpace(raw)) == Some(n) && TrimSpace(raw) != ""
  {
    PaddedIsRead(raw, Itoa(n));
    AtoiOfItoa(n);
  }

  /** The form filled in with these settings, apart from the password. */
  ghost predicate Types(form: EmailForm, e: Email) {
    && IsPadded(form.host, e.smtpHost) && e.smtpPort >= 0 && IsPadded(form.port, Itoa(e.smtpPort))
    && IsPadded(form.username, e.username) && IsPadded(form.sender, e.sender) && IsPadded(form.to, e.to)
  }

  predicate Sendable(e: Email) {
    e.smtpHost != "" && 1 <= e.smtpPort && e.smtpPort <= 65535 && e.sender != "" && e.to != ""
  }

  lemma TypedEmailIsRead(form: EmailForm, e: Email, oldPassword: string)
    requires Types(form, e)
    ensures !Blank(form)
    ensures NewEmail(form, oldPassword)
            == Some(e.(password := if form.password == "" then oldPassword else form.password))
  {
    hide TrimSpace, Atoi, Itoa;
    PaddedIsRead(form.host, e.smtpHost);
    NumberIsRead(form.port, e.smtpPort);
    PaddedIsRead(form.username, e.username);
    PaddedIsRead(form.sender, e.sender);
    PaddedIsRead(form.to, e.to);
    hide IsPadded;
  }

  /** Exactly complete settings with a port are stored as typed; an empty password keeps the old one. */
  lemma TypedEmailIsStored(s: System, form: EmailForm, e: Email, addressesParse: bool, saved: bool)
    requires Types(form, e) && e.password == if form.password == "" then s.cfg.email.password else form.password
    ensures var s' := Step(s, PostEmail(form, addressesParse, saved));
            if !(Sendable(e) && addressesParse) then s' == s
            else
              && s'.cfg == s.cfg.(email := e)
              && (saved ==> s'.row == Some(ToRow(s'.cfg)) && s'.endpoint == s.endpoint.(email := e) && !s'.onboarding)
              && (!saved ==> s' == s.(cfg := s'.cfg))
  {
    TypedEmailIsRead(form, e, s.cfg.email.password);
    hide Types, Blank, NewEmail, ToRow;
  }

  /** No digit, or something among the digits: a text strconv.Atoi refuses. */
  predicate NoNumber(raw: string) {
    (forall c :: c in raw ==> !IsDigit(c)) || exists c :: c in TrimSpace(raw) && !IsDigit(c) && c != '+' && c != '-'
  }

  lemma OddDigit(t: string, digits: string, i: nat)
    requires digits == if t != "" && (t[0] == '+' || t[0] == '-') then t[1..] else t
    requires i < |digits| && !IsDigit(digits[i])
    ensures Atoi(t) == None
  {
  }

  lemma NoNumberIsRefused(raw: string)
    requires NoNumber(raw)
    ensures Atoi(TrimSpace(raw)) == None
  {
    var t := TrimSpace(raw);
    TrimSpaceTrims(raw);
    var digits := if t != "" && (t[0] == '+' || t[0] == '-') then t[1..] else t;
    hide TrimSpace;
    if forall c :: c in raw ==> !IsDigit(c) {
      if digits != [] {
        assert digits[0] in t;
        OddDigit(t, digits, 0);
      }
    } else {
      var c :| c in t && !IsDigit(c) && c != '+' && c != '-';
      var k :| 0 <= k < |t| && t[k] == c;
      OddDigit(t, digits, k - (|t| - |digits|));
    }
  }

  /** Without a port number, a form that is empty all over skips the step, and any other changes nothing. */
  lemma UnnumberedPortChangesNothing(s: System, form: EmailForm, addressesParse: bool, saved: bool)
    requires NoNumber(form.port)
    ensures var empty := AllSpace(form.host) && AllSpace(form.port) && AllSpace(form.username) && form.password == ""
                         && AllSpace(form.sender) && AllSpace(form.to);
            Step(s, PostEmail(form, addressesParse, saved)) == if empty then s.(onboarding := false) else s
  {
    NoNumberIsRefused(form.port);
    EmptyIffAllSpace(form.host);
    EmptyIffAllSpace(form.port);
    EmptyIffAllSpace(form.username);
    EmptyIffAllSpace(form.sender);
    EmptyIffAllSpace(form.to);
    hide TrimSpace, Atoi, AllSpace, NoNumber;
  }

  /** emailDataFromConfig: the form as the page shows it, never with the password. */
  function Page(e: Email): EmailForm
    requires e.smtpPort >= 0
  {
    EmailForm(e.smtpHost, if e.smtpPort != 0 then Itoa(e.smtpPort) else "", e.username, "", e.sender, e.to)
  }

  /** Settings as the handlers leave them: none, or complete and trimmed. */
  predicate Presentable(e: Email) {
    e == NoEmail ||
    (Sendable(e) && Trimmed(e.smtpHost) && Trimmed(e.username) && Trimmed(e.sender) && Trimmed(e.to))
  }

  lemma PaddedWithNothing(text: string)
    requires Trimmed(text)
    ensures IsPadded(text, text)
  {
    assert Pads(text, "", text, "");
  }

  lemma NumberIsTrimmed(n: nat)
    ensures IsPadded(Itoa(n), Itoa(n))
  {
    var s := Itoa(n);
    assert IsDigit(s[0]) && IsDigit(s[|s| - 1]);
    PaddedWithNothing(s);
  }

  lemma PageTypes(e: Email)
    requires Presentable(e) && e != NoEmail
    ensures Types(Page(e), e)
  {
    PaddedWithNothing(e.smtpHost);
    NumberIsTrimmed(e.smtpPort);
    PaddedWithNothing(e.username);
    PaddedWithNothing(e.sender);
    PaddedWithNothing(e.to);
    hide IsPadded, Trimmed, Itoa;
  }

  /** Posting the page as it is shown leaves the settings, password included, as they were. */
  lemma PageRoundTrip(s: System, addressesParse: bool, saved: bool)
    requires Presentable(s.cfg.email)
    ensures Step(s, PostEmail(Page(s.cfg.email), addressesParse, saved)).cfg == s.cfg
  {
    var e := s.cfg.email;
    if e == NoEmail {
      assert Blank(Page(NoEmail));
    } else {
      PageTypes(e);
      TypedEmailIsStored(s, Page(e), e, addressesParse, saved);
    }
  }

  /** Changing one field of the page changes that setting and no other. */
  lemma PageEditsOneField(s: System, text: string, port: nat)
    requires Presentable(s.cfg.email) && s.cfg.email != NoEmail && Trimmed(text) && text != "" && 1 <= port <= 65535
    ensures var e, page := s.cfg.email, Page(s.cfg.email);
            && Step(s, PostEmail(page.(host := text), true, true)).cfg == s.cfg.(email := e.(smtpHost := text))
            && Step(s, PostEmail(page.(port := Itoa(port)), true, true)).cfg == s.cfg.(email := e.(smtpPort := port))
            && Step(s, PostEmail(page.(username := text), true, true)).cfg == s.cfg.(email := e.(username := text))
            && Step(s, PostEmail(page.(password := text), true, true)).cfg == s.cfg.(email := e.(password := text))
            && Step(s, PostEmail(page.(sender := text), true, true)).cfg == s.cfg.(email := e.(sender := text))
            && Step(s, PostEmail(page.(to := text), true, true)).cfg == s.cfg.(email := e.(to := text))
  {
    var e, page := s.cfg.email, Page(s.cfg.email);
    PageTypes(e);
    PaddedWithNothing(text);
    NumberIsTrimmed(port);
    hide IsPadded, Step, Itoa;
    TypedEmailIsStored(s, page.(host := text), e.(smtpHost := text), true, true);
    TypedEmailIsStored(s, page.(port := Itoa(port)), e.(smtpPort := port), true, true);
    TypedEmailIsStored(s, page.(username := text), e.(username := text), true, true);
    TypedEmailIsStored(s, page.(password := text), e.(password := text), true, true);
    TypedEmailIsStored(s, page.(sender := text), e.(sender := text), true, true);
    TypedEmailIsStored(s, page.(to := text), e.(to := text), true, true);
  }

  predicate PresentableRow(row: Option<Row>) { row.Some? ==> Presentable(row.value.email) }

  lemma NewEmailIsTrimmed(form: EmailForm, oldPassword: string)
    requires NewEmail(form, oldPassword).Some?
    ensures var e := NewEmail(form, oldPassword).value;
            Trimmed(e.smtpHost) && Trimmed(e.username) && Trimmed(e.sender) && Trimmed(e.to)
  {
    TrimSpaceTrims(form.host);
    TrimSpaceTrims(form.username);
    TrimSpaceTrims(form.sender);
    TrimSpaceTrims(form.to);
    hide TrimSpace, Atoi, Trimmed;
  }

  lemma StepKeepsPresentable(s: System, op: Op)
    requires Presentable(s.cfg.email) && PresentableRow(s.row)
    ensures Presentable(Step(s, op).cfg.email) && PresentableRow(Step(s, op).row)
  {
    if op.PostEmail? && NewEmail(op.emailForm, s.cfg.email.password).Some? {
      NewEmailIsTrimmed(op.emailForm, s.cfg.email.password);
    }
    hide Atoi, TrimSpace, Trimmed, NewEmail, FromRecord, Blank, Truncate, TimeToUnix, LiveRefresher, AcceptsSource;
  }

  /** Settings stay presentable in every run, so the page round trip holds in every state. */
  lemma {:induction false} RunsKeepPresentable(row: Option<Row>, readable: bool, rec: Option<Record>, ops: seq<Op>)
    requires PresentableRow(row)
    ensures var s := Run(Boot(row, readable, rec), ops);
            Presentable(s.cfg.email) && PresentableRow(s.row)
    decreases |ops|
  {
    hide Presentable, Step, FromRecord, LiveRefresher;
    if ops == [] {
      assert Presentable(NoEmail) by { NoEmailIsPresentable(); }
    } else {
      RunsKeepPresentable(row, readable, rec, ops[..|ops| - 1]);
      StepKeepsPresentable(Run(Boot(row, readable, rec), ops[..|ops| - 1]), ops[|ops| - 1]);
    }
  }

  lemma NoEmailIsPresentable()
    ensures Presentable(NoEmail)
  {
  }

  // The source form

  lemma NegativeIsRead(n: nat)
    ensures Atoi("-" + Itoa(n)).Some? ==> Atoi("-" + Itoa(n)).value <= 0
  {
    hide Itoa;
    var text := "-" + Itoa(n);
    assert text[0] == '-';
  }

  /** Minutes as typed; a negative number and a text that is none count as 0. */
  lemma MinutesAreRead(raw: string, n: nat)
    ensures IsPadded(raw, Itoa(n)) ==> Minutes(raw) == n
    ensures IsPadded(raw, "-" + Itoa(n)) ==> Minutes(raw) == 0
    ensures NoNumber(raw) ==> Minutes(raw) == 0
  {
    hide TrimSpace, Itoa, Atoi, IsPadded, NoNumber;
    if IsPadded(raw, Itoa(n)) { NumberIsRead(raw, n); }
    if IsPadded(raw, "-" + Itoa(n)) {
      PaddedIsRead(raw, "-" + Itoa(n));
      NegativeIsRead(n);
    }
    if NoNumber(raw) { NoNumberIsRefused(raw); }
  }

  lemma MinuteInterval(n: nat)
    ensures n * MINUTE == n * 60 * 1_000_000_000
  {
  }

  /** A link that loads is stored as typed, with its minutes; its refresher runs unless they are 0. */
  lemma TypedLinkIsStored(s: System, op: Op, link: string, n: nat)
    requires op.PostSource? && op.form.file.None? && op.urlValid && HasName(op.rec)
    requires IsPadded(op.form.url, link) && link != "" && IsPadded(op.form.refreshMinutes, Itoa(n))
    ensures var s' := Step(s, op);
            var interval := n * 60 * 1_000_000_000;
            && s'.cfg == Config(
                           Source(Url, op.form.normalizedURL), interval, s.cfg.webhookURL, s.cfg.email, link, op.now)
            && s'.provider == ProviderIn(op.rec) && !s'.failed
            && s'.refresher == (if n > 0 then Some(interval) else None)
            && (op.saved ==> s'.row == Some(ToRow(s'.cfg)) && s'.endpoint == s.endpoint.(provider := s'.provider))
            && (!op.saved ==> s'.row == s.row && s'.endpoint == s.endpoint)
            && s'.onboarding == s.onboarding
  {
    PaddedIsRead(op.form.url, link);
    MinutesAreRead(op.form.refreshMinutes, n);
    MinuteInterval(n);
    LoadedIff(op.rec);
    hide TrimSpace, Minutes, ToRow, Itoa, IsPadded, Loaded, HasName, ProviderIn, MINUTE;
    assert AcceptsSource(op) && NewSource(op.form) == Source(Url, op.form.normalizedURL) && NewLabel(op.form) == link;
    assert NewInterval(op.form) == n * 60 * 1_000_000_000;
    hide AcceptsSource, NewSource, NewInterval, NewLabel;
  }

  /** So is an upload that could be written, without a refresher. */
  lemma UploadIsStored(s: System, op: Op)
    requires op.PostSource? && op.form.file.Some? && op.written && AllSpace(op.form.url) && HasName(op.rec)
    ensures var s' := Step(s, op);
            && s'.cfg == Config(
                           Source(File, op.form.file.value), 0, s.cfg.webhookURL, s.cfg.email, op.form.fileName, op.now)
            && s'.provider == ProviderIn(op.rec) && !s'.failed && s'.refresher == None
            && (op.saved ==> s'.row == Some(ToRow(s'.cfg)) && s'.endpoint == s.endpoint.(provider := s'.provider))
            && (!op.saved ==> s'.row == s.row && s'.endpoint == s.endpoint)
            && s'.onboarding == s.onboarding
  {
    EmptyIffAllSpace(op.form.url);
    LoadedIff(op.rec);
    hide TrimSpace, Minutes, ToRow, AllSpace, Loaded, HasName, ProviderIn;
  }

  /** Anything else about the source changes nothing. */
  lemma UnusableSourceChangesNothing(s: System, op: Op)
    requires op.PostSource?
    requires || (op.form.file.Some? <==> !AllSpace(op.form.url))
             || !HasName(op.rec)
             || (op.form.file.Some? && !op.written) || (op.form.file.None? && !op.urlValid)
    ensures Step(s, op) == s
  {
    EmptyIffAllSpace(op.form.url);
    LoadedIff(op.rec);
    hide TrimSpace, AllSpace, CommitSource, Loaded, HasName;
  }

  /** A webhook address is stored and published without its padding; a blank one ends the onboarding. */
  lemma TypedWebhookIsStored(s: System, raw: string, url: string, urlValid: bool, saved: bool)
    requires IsPadded(raw, url)
    ensures var s' := Step(s, PostWebhook(raw, urlValid, saved));
            if url == "" then s' == s.(onboarding := false)
            else if !urlValid then s' == s
            else
              && s'.cfg == s.cfg.(webhookURL := url)
              && (saved ==>
                    s'.row == Some(ToRow(s'.cfg)) && s'.endpoint == s.endpoint.(webhookURL := url) && !s'.onboarding)
              && (!saved ==> s' == s.(cfg := s'.cfg))
  {
    PaddedIsRead(raw, url);
    hide TrimSpace, ToRow, IsPadded;
  }

  // ---------------------------------------------------------------------------
  // The servers as the objects they are
  // ---------------------------------------------------------------------------

  class Refresher {
    const interval: Duration
    var running: bool
    var stopped: bool

    constructor (interval: Duration)
      ensures this.interval == interval && !running && !stopped
    {
      this.interval := interval;
      running, stopped := false, false;
    }

    method Start()
      modifies this
      ensures running == (old(running) || interval > 0) && stopped == old(stopped)
    {
      if interval <= 0 {
        return;
      }
      running := true;
    }

    /** Closing the stop channel a second time would panic; Stop looks first. */
    method Stop()
      modifies this
      ensures stopped && running == old(running)
    {
      if !stopped {
        stopped := true;
      }
    }
  }

  class EndpointServer {
    var provider: Provider
    var webhookURL: string
    var email: Email

    function View(): Endpoint
      reads this
    {
      Endpoint(provider, webhookURL, email)
    }

    constructor ()
      ensures View() == FreshEndpoint
    {
      provider, webhookURL, email := NoProvider, "", NoEmail;
    }

    method UpdateProvider(p: Provider)
      modifies this
      ensures View() == old(View()).(provider := p)
    {
      provider := p;
    }

    method UpdateWebhook(url: string)
      modifies this
      ensures View() == old(View()).(webhookURL := url)
    {
      webhookURL := url;
    }

    method UpdateEmail(e: Email)
      modifies this
      ensures View() == old(View()).(email := e)
    {
      email := e;
    }
  }

  class Server {
    const store: Store
    const endpoint: EndpointServer
    var cfg: Config
    var provider: Provider
    var failed: bool
    var refresher: Refresher?
    var onboardingActive: bool
    /** Every refresher this server has started. */
    ghost var started: set<Refresher>

    /** At most one refresher has an open stop channel: the current one, and it is running. */
    ghost predicate Valid()
      reads this, started
    {
      && (refresher != null ==> refresher in started && refresher.running && !refresher.stopped)
      && forall r :: r in started && r != refresher ==> r.stopped
    }

    function View(): System
      reads this, store, endpoint, refresher
    {
      System(cfg, provider, failed, if refresher == null then None else Some(refresher.interval), onboardingActive,
             store.row, endpoint.View())
    }

    /** New: a fresh endpoint, and whatever can be read from the store. */
    constructor (store: Store, endpoint: EndpointServer, readable: bool, rec: Option<Record>)
      requires endpoint.View() == FreshEndpoint
      modifies endpoint
      ensures this.store == store && this.endpoint == endpoint && fresh(started)
      ensures Valid() && View() == Boot(store.row, readable, rec)
    {
      this.store, this.endpoint := store, endpoint;
      cfg, provider, failed, refresher, onboardingActive := NoConfig, NoProvider, false, null, true;
      started := {};
      new;
      var saved, ok := store.Load(readable);
      if ok && saved.Some? {
        cfg := saved.value;
        onboardingActive := false;
        Restore(rec);
      }
    }

    method Restore(rec: Option<Record>)
      requires Valid() && started == {}
      requires endpoint.View() == FreshEndpoint && provider == NoProvider && !failed && refresher == null
      requires !onboardingActive && Storable(cfg) && store.row == Some(ToRow(cfg))
      modifies this, endpoint
      ensures Valid() && fresh(started)
      ensures View() == Boot(store.row, true, rec)
    {
      StorableIsDetermined(cfg, store.row.value);
      var p := Loaded(rec);
      if p.None? {
        failed := true;
        return;
      }
      provider := p.value;
      endpoint.UpdateProvider(p.value);
      if cfg.webhookURL != "" {
        endpoint.UpdateWebhook(cfg.webhookURL);
      }
      if cfg.email.to != "" {
        endpoint.UpdateEmail(cfg.email);
      }
      StartRefresherLocked();
    }

    method StartRefresherLocked()
      requires Valid()
      modifies this`refresher, this`started, started
      ensures Valid() && fresh(started - old(started))
      ensures (if refresher == null then None else Some(refresher.interval)) == LiveRefresher(cfg)
    {
      if refresher != null {
        refresher.Stop();
        refresher := null;
      }
      if cfg.source.kind == Url && cfg.refreshInterval > 0 {
        var r := new Refresher(cfg.refreshInterval);
        r.Start();
        refresher := r;
        started := started + {r};
      }
    }

    method RefreshFromSource(rec: Option<Record>, now: Time, saved: bool)
      requires Valid()
      modifies this, store, endpoint
      ensures Valid() && started == old(started)
      ensures View() == Step(old(View()), Op.Refresh(rec, now, saved))
    {
      var p := Loaded(rec);
      if p.None? {
        failed := true;
        return;
      }
      provider := p.value;
      failed := false;
      cfg := cfg.(sourceUpdatedAt := now);
      var ok := store.Save(cfg, saved);
      endpoint.UpdateProvider(p.value);
    }

    method HandleSource(form: SourceForm, urlValid: bool, rec: Option<Record>, written: bool, now: Time, saved: bool)
      requires Valid()
      modifies this, store, endpoint, started
      ensures Valid() && fresh(started - old(started))
      ensures View() == Step(old(View()), PostSource(form, urlValid, rec, written, now, saved))
    {
      hide TrimSpace, Minutes;
      var urlVal := TrimSpace(form.url);
      if form.file.Some? && urlVal != "" {
        return;
      }
      if form.file.None? && urlVal == "" {
        return;
      }
      var p := Loaded(rec);
      var newSrc, interval, sourceLabel;
      if form.file.Some? {
        if p.None? || !written {
          return;
        }
        newSrc, interval, sourceLabel := Source(File, form.file.value), 0, form.fileName;
      } else {
        if !urlValid || p.None? {
          return;
        }
        newSrc, interval, sourceLabel := Source(Url, form.normalizedURL), Minutes(form.refreshMinutes) * MINUTE, urlVal;
      }
      cfg := cfg.(source := newSrc, refreshInterval := interval, sourceLabel := sourceLabel, sourceUpdatedAt := now);
      provider := p.value;
      failed := false;
      StartRefresherLocked();
      var ok := store.Save(cfg, saved);
      if !ok {
        return;
      }
      endpoint.UpdateProvider(p.value);
    }

    method HandleWebhook(url: string, urlValid: bool, saved: bool)
      requires Valid()
      modifies this, store, endpoint
      ensures Valid() && started == old(started)
      ensures View() == Step(old(View()), PostWebhook(url, urlValid, saved))
    {
      hide TrimSpace;
      var webhookURL := TrimSpace(url);
      if webhookURL == "" {
        onboardingActive := false;
        return;
      }
      if !urlValid {
        return;
      }
      cfg := cfg.(webhookURL := webhookURL);
      var ok := store.Save(cfg, saved);
      if !ok {
        return;
      }
      endpoint.UpdateWebhook(webhookURL);
      onboardingActive := false;
    }

    method HandleEmail(form: EmailForm, addressesParse: bool, saved: bool)
      requires Valid()
      modifies this, store, endpoint
      ensures Valid() && started == old(started)
      ensures View() == Step(old(View()), PostEmail(form, addressesParse, saved))
    {
      hide TrimSpace, Atoi;
      if Blank(form) {
        onboardingActive := false;
        return;
      }
      var newEmail := NewEmail(form, cfg.email.password);
      if newEmail.None? || !ValidEmail(newEmail.value, addressesParse) {
        return;
      }
      cfg := cfg.(email := newEmail.value);
      var ok := store.Save(cfg, saved);
      if !ok {
        return;
      }
      endpoint.UpdateEmail(newEmail.value);
      onboardingActive := false;
    }

    method HandleOnboardingSkip()
      requires Valid()
      modifies this
      ensures Valid() && started == old(started)
      ensures View() == Step(old(View()), Skip)
    {
      onboardingActive := false;
    }
  }
}
