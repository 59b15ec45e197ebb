/**
  What overlapping handlers may do to the copies of the admin's memory and to the
  freshness of the data it serves, and when they do no harm (internal/admin/server.go:134-168,
  internal/admin/onboarding.go:154-172, 217-229, 303-315).
  */
module AdminAgreement {
  import opened Strings
  import opened ConfigStore
  import opened AdminServer
  import opened AdminInterleaved

  // ---------------------------------------------------------------------------
  // Fresh data
  // ---------------------------------------------------------------------------

  /**
    The last event that committed a provider was a boot, a source change, or a
    refresh that had read the source which was current when it committed.
    */
  ghost predicate LastCommitFresh(start: World, events: seq<Event>)
    decreases |events|
  {
    events == [] ||
    (var front := events[..|events| - 1];
     var w := RunAll(start, front);
     match events[|events| - 1]
     case Crash(_, _) => true
     case Move(id, _, _) =>
       if id < |w.threads| && w.threads[id].SourceReady? then true
       else if id < |w.threads| && w.threads[id].RefreshLoaded? then w.threads[id].src == w.sys.cfg.source
       else LastCommitFresh(start, front)
     case _ => LastCommitFresh(start, front))
  }

  lemma NextOrigin(w: World, e: Event)
    ensures var w' := Next(w, e);
            if e.Crash? then w'.origin == w'.sys.cfg.source
            else if e.Move? && e.thread < |w.threads| && w.threads[e.thread].SourceReady? then
              w'.origin == w'.sys.cfg.source
            else w'.sys.cfg.source == w.sys.cfg.source
                 && w'.origin == if e.Move? && e.thread < |w.threads| && w.threads[e.thread].RefreshLoaded?
                                 then w.threads[e.thread].src else w.origin
  {
    hide ToRow, FromRow, NewEmail, ValidEmail, Blank, TrimSpace, FromRecord, LiveRefresher;
  }

  lemma {:induction false} FreshIff(start: World, events: seq<Event>)
    requires start.origin == start.sys.cfg.source
    ensures var w := RunAll(start, events);
            w.origin == w.sys.cfg.source <==> LastCommitFresh(start, events)
    decreases |events|
  {
    hide Next;
    if events != [] {
      FreshIff(start, events[..|events| - 1]);
      NextOrigin(RunAll(start, events[..|events| - 1]), events[|events| - 1]);
    }
  }

  lemma StartIsFresh(seed: Option<Config>, readable: bool, rec: Option<Record>)
    ensures Start(seed, readable, rec).origin == Start(seed, readable, rec).sys.cfg.source
  {
    hide ToRow, FromRow, LiveRefresher;
  }

  /** The admin's provider comes from the current source exactly if the commit that decided was fresh. */
  lemma {:induction false} ServesCurrentSourceIff(seed: Option<Config>, readable: bool,
                                                  rec: Option<Record>, events: seq<Event>)
    ensures var start, w := Start(seed, readable, rec), RunAll(Start(seed, readable, rec), events);
            w.origin == w.sys.cfg.source <==> LastCommitFresh(start, events)
  {
    StartIsFresh(seed, readable, rec);
    FreshIff(Start(seed, readable, rec), events);
  }

  /** The refresh about to commit read its source after the last source commit. */
  ghost predicate CommitsUndisturbed(w: World, e: Event) {
    e.Move? && e.thread < |w.threads| && w.threads[e.thread].RefreshLoaded? ==>
      w.threads[e.thread].version == w.version
  }

  ghost predicate Undisturbed(w: World, events: seq<Event>) {
    forall n :: 0 <= n < |events| ==> CommitsUndisturbed(RunAll(w, events[..n]), events[n])
  }

  lemma {:induction false} UndisturbedCommitsAreFresh(start: World, events: seq<Event>)
    requires Inv(start) && Undisturbed(start, events)
    ensures LastCommitFresh(start, events)
    decreases |events|
  {
    hide Inv, Next;
    if events != [] {
      var front, e := events[..|events| - 1], events[|events| - 1];
      assert forall n :: 0 <= n < |front| ==> events[..n] == front[..n];
      UndisturbedCommitsAreFresh(start, front);
      RunKeepsInv(start, front);
      var w := RunAll(start, front);
      assert CommitsUndisturbed(RunAll(start, events[..|front|]), e);
      if e.Move? && e.thread < |w.threads| { ThreadsAreGood(w, e.thread); }
    }
  }

  lemma ThreadsAreGood(w: World, id: nat)
    requires Inv(w) && id < |w.threads|
    ensures ThreadGood(w, w.threads[id])
  {
  }

  /** If no source commit falls between a refresh's read and its commit, the admin serves the current source. */
  lemma {:induction false} UndisturbedRunsAreFresh(seed: Option<Config>, readable: bool,
                                                   rec: Option<Record>, events: seq<Event>)
    requires Undisturbed(Start(seed, readable, rec), events)
    ensures var w := RunAll(Start(seed, readable, rec), events);
            w.origin == w.sys.cfg.source
  {
    StartIsInv(seed, readable, rec);
    ServesCurrentSourceIff(seed, readable, rec, events);
    UndisturbedCommitsAreFresh(Start(seed, readable, rec), events);
  }

  /** No handler and no refresh is under way. */
  ghost predicate Quiet(w: World) {
    forall id :: 0 <= id < |w.threads| ==> w.threads[id] == Done
  }

  lemma {:induction false} RunUnfolds(w: World, events: seq<Event>, worlds: seq<World>)
    requires |worlds| == |events| + 1 && worlds[0] == w
    requires forall n :: 0 <= n < |events| ==> worlds[n + 1] == Next(worlds[n], events[n])
    ensures RunAll(w, events) == worlds[|events|]
    decreases |events|
  {
    hide Next;
    if events != [] {
      RunUnfolds(w, events[..|events| - 1], worlds[..|events|]);
    }
  }

  /** What the steps of a provider's thread do, one by one. */
  lemma ProviderStep(w: World, id: nat, o: Oracle)
    requires id < |w.threads| && o.saved
    ensures var w', t := Next(w, Move(id, o, false)), w.threads[id];
            && (t.RefreshStart? ==> w' == w.(threads := w.threads[id := RefreshRead(w.sys.cfg.source, w.version)]))
            && (t.RefreshRead? && Loaded(o.rec).Some? ==>
                  w' == w.(threads := w.threads[id := RefreshLoaded(t.src, t.version, Loaded(o.rec).value)]))
            && (t.RefreshLoaded? ==>
                  var cfg := w.sys.cfg.(sourceUpdatedAt := o.now);
                  && w'.sys == w.sys.(provider := t.p, failed := false, cfg := cfg) && w'.origin == t.src
                  && w'.threads == w.threads[id := Saving(|w.log|, cfg, PublishProvider(t.p), true)])
            && (t.SourceReady? ==>
                  && w'.sys == CommitSource(w.sys, t.newSrc, t.interval, t.sourceLabel, t.p, o.now)
                  && w'.threads == w.threads[id := Saving(|w.log|, w'.sys.cfg, PublishProvider(t.p), false)])
            && (t.Saving? ==> w'.sys == w.sys.(row := Some(ToRow(t.cfgCopy))) && w'.origin == w.origin
                              && w'.threads == w.threads[id := Publishing(t.no, t.what)])
            && (t.Publishing? && t.what.PublishProvider? ==>
                  && w'.sys == Published(w.sys, t.what.p) && w'.origin == w.origin
                  && w'.threads == w.threads[id := Done])
  {
    hide ToRow, LiveRefresher, FromRecord;
  }

  lemma NothingRunsAtStart(seed: Option<Config>, readable: bool, rec: Option<Record>)
    ensures Start(seed, readable, rec).threads == []
  {
    hide ToRow, FromRow, LiveRefresher;
  }

  lemma TickArrives(w: World)
    ensures Next(w, Tick) == w.(threads := w.threads + [RefreshStart])
  {
  }

  lemma SourceIsPosted(w: World, e: Event)
    requires e.SourceArrives? && Loaded(e.rec).Some?
    ensures Next(w, e) ==
            w.(threads := w.threads + [SourceReady(e.src, e.interval, e.sourceLabel, Loaded(e.rec).value)])
  {
  }

  /** A refresh reads its source, the source changes, the refresh commits: all is at rest, agrees, and is stale. */
  lemma StaleRun(seed: Option<Config>, readable: bool, rec: Option<Record>, newSrc: Source, interval: Duration,
                 sourceLabel: string, oldRec: Record, newRec: Record, now: Time) returns (events: seq<Event>)
    requires newSrc != Start(seed, readable, rec).sys.cfg.source
    requires FromRecord(oldRec).Some? && FromRecord(newRec).Some?
    ensures var start, w := Start(seed, readable, rec), RunAll(Start(seed, readable, rec), events);
            && Quiet(w) && (Agree(start.sys) ==> Agree(w.sys)) && w.sys.cfg.source == newSrc
            && w.origin == start.sys.cfg.source && w.sys.endpoint.provider == FromRecord(oldRec).value
  {
    hide Next, Start, RunAll, ToRow;
    var outdated, updated := Oracle(Some(oldRec), true, now), Oracle(Some(newRec), true, now);
    var refresh, change := Move(0, outdated, false), Move(1, updated, false);
    var arrives := SourceArrives(newSrc, interval, sourceLabel, Some(newRec));
    events := [Tick, refresh, refresh, arrives, change, change, change, refresh, refresh, refresh];
    var w0 := Start(seed, readable, rec);
    NothingRunsAtStart(seed, readable, rec);
    var w1 := Next(w0, Tick);
    var w2 := Next(w1, refresh);
    var w3 := Next(w2, refresh);
    var w4 := Next(w3, arrives);
    var w5 := Next(w4, change);
    var w6 := Next(w5, change);
    var w7 := Next(w6, change);
    var w8 := Next(w7, refresh);
    var w9 := Next(w8, refresh);
    var w10 := Next(w9, refresh);
    TickArrives(w0);
    assert w1.threads == [RefreshStart];
    ProviderStep(w1, 0, outdated);
    assert w2.threads == [RefreshRead(w0.sys.cfg.source, w1.version)];
    ProviderStep(w2, 0, outdated);
    var loaded := w3.threads[0];
    SourceIsPosted(w3, arrives);
    ProviderStep(w4, 1, updated);
    ProviderStep(w5, 1, updated);
    ProviderStep(w6, 1, updated);
    assert w7.threads == [loaded, Done];
    ProviderStep(w7, 0, outdated);
    ProviderStep(w8, 0, outdated);
    ProviderStep(w9, 0, outdated);
    assert w10.threads == [Done, Done];
    RunUnfolds(w0, events, [w0, w1, w2, w3, w4, w5, w6, w7, w8, w9, w10]);
  }

  // ---------------------------------------------------------------------------
  // When the copies agree
  // ---------------------------------------------------------------------------

  ghost predicate Matches(s: System, c: Copy) { HoldsOf(s, c, Commit(s.cfg, s.provider)) }

  lemma AgreeIffAllMatch(s: System)
    ensures Agree(s) <==> forall c :: Matches(s, c)
  {
    hide ToRow;
    if forall c :: Matches(s, c) {
      assert Matches(s, RowCopy) && Matches(s, ProviderCopy) && Matches(s, WebhookCopy) && Matches(s, EmailCopy);
    }
  }

  /** The commit the copy was last written by left in it what the last one that concerned it did. */
  ghost predicate UpToDate(w: World, c: Copy)
    requires Logged(w)
  {
    assert CopyLogged(w, c);
    var a, b := w.log[w.written.Of(c)], w.log[w.latest.Of(c)];
    if c == RowCopy && w.sys.row.None? then w.sys.cfg == NoConfig else SameFor(c, a, b)
  }

  /** In every interleaving, failures and crashes included, that decides about agreement. */
  lemma {:induction false} AgreeIffUpToDate(seed: Option<Config>, readable: bool,
                                            rec: Option<Record>, events: seq<Event>)
    ensures var w := RunAll(Start(seed, readable, rec), events);
            Logged(w) && (Agree(w.sys) <==> forall c :: UpToDate(w, c))
  {
    StartIsInv(seed, readable, rec);
    RunKeepsInv(Start(seed, readable, rec), events);
    var w := RunAll(Start(seed, readable, rec), events);
    hide RunAll, Start, Sound, OneOpen, ThreadGood, ToRow;
    AgreeIffAllMatch(w.sys);
    forall c | true
      ensures Matches(w.sys, c) <==> UpToDate(w, c)
    {
      assert CopyLogged(w, c);
    }
  }

  // ---------------------------------------------------------------------------
  // Runs in order end in agreement
  // ---------------------------------------------------------------------------

  /** The thread has yet to write this copy. */
  predicate Owes(t: Thread, c: Copy) {
    match t
    case Saving(_, _, what, _) => c == RowCopy || c == CopyOf(what)
    case Publishing(_, what) => c == CopyOf(what)
    case _ => false
  }

  /** Saves succeed, each copy is written in the order of the commits, and a restart finds what it needs. */
  ghost predicate Orderly(w: World, e: Event) {
    match e
    case Move(id, o, _) =>
      id < |w.threads| ==>
        (match w.threads[id]
         case Saving(no, _, _, _) => o.saved && w.written.row < no
         case Publishing(no, what) => w.written.Of(CopyOf(what)) < no
         case _ => true)
    case Crash(readable, rec) => Restorable(w.sys.row, readable, rec)
    case _ => true
  }

  ghost predicate AllOrderly(w: World, events: seq<Event>) {
    forall n :: 0 <= n < |events| ==> Orderly(RunAll(w, events[..n]), events[n])
  }

  /** The copy is right, and nothing may still be written to it in order. */
  ghost predicate Settled(w: World, c: Copy) {
    && Matches(w.sys, c)
    && forall id :: 0 <= id < |w.threads| && Owes(w.threads[id], c) ==> w.threads[id].no <= w.written.Of(c)
  }

  /** The thread of the last commit that concerned the copy has yet to write it. */
  ghost predicate Underway(w: World, c: Copy) {
    exists id :: 0 <= id < |w.threads| && Owes(w.threads[id], c) && w.threads[id].no == w.latest.Of(c)
  }

  ghost predicate InOrder(w: World, c: Copy) {
    && (forall id :: 0 <= id < |w.threads| && Owes(w.threads[id], c) ==> w.threads[id].no <= w.latest.Of(c))
    && (Settled(w, c) || Underway(w, c))
  }

  predicate OnlyMoved(w: World, w': World, id: nat) {
    id < |w.threads| == |w'.threads| && w'.threads == w.threads[id := w'.threads[id]]
  }

  lemma UntouchedStaysInOrder(w: World, w': World, id: nat, c: Copy)
    requires InOrder(w, c) && OnlyMoved(w, w', id)
    requires Owes(w.threads[id], c) <==> Owes(w'.threads[id], c)
    requires Owes(w.threads[id], c) ==> w.threads[id].no == w'.threads[id].no
    requires w'.latest.Of(c) == w.latest.Of(c) && w'.written.Of(c) == w.written.Of(c)
    requires Matches(w.sys, c) ==> Matches(w'.sys, c)
    ensures InOrder(w', c)
  {
    hide Matches, Marks.Of;
    if Underway(w, c) {
      var n :| 0 <= n < |w.threads| && Owes(w.threads[n], c) && w.threads[n].no == w.latest.Of(c);
      assert Owes(w'.threads[n], c) && w'.threads[n].no == w.latest.Of(c);
    }
  }

  lemma CommitIsUnderway(w: World, w': World, id: nat, c: Copy)
    requires InOrder(w, c) && w.latest.Of(c) < |w.log|
    requires OnlyMoved(w, w', id)
    requires Owes(w'.threads[id], c) && w'.threads[id].no == |w.log| == w'.latest.Of(c)
    ensures InOrder(w', c)
  {
    hide Matches, Marks.Of;
    assert Underway(w', c);
  }

  lemma OrderlyWriteStaysInOrder(w: World, w': World, id: nat, c: Copy)
    requires InOrder(w, c) && OnlyMoved(w, w', id)
    requires Owes(w.threads[id], c) && !Owes(w'.threads[id], c)
    requires w.written.Of(c) < w.threads[id].no == w'.written.Of(c) && w'.latest.Of(c) == w.latest.Of(c)
    requires w.threads[id].no == w.latest.Of(c) ==> Matches(w'.sys, c)
    ensures InOrder(w', c)
  {
    hide Matches, Marks.Of;
    if w.threads[id].no < w.latest.Of(c) {
      var n :| 0 <= n < |w.threads| && Owes(w.threads[n], c) && w.threads[n].no == w.latest.Of(c);
      assert Owes(w'.threads[n], c) && w'.threads[n].no == w.latest.Of(c);
    }
  }

  lemma CommitStaysInOrder(w: World, id: nat, o: Oracle, addressesParse: bool, c: Copy)
    requires Inv(w) && InOrder(w, c) && id < |w.threads|
    requires var t := w.threads[id]; t.RefreshLoaded? || t.SourceReady? || t.WebhookReady? || t.EmailReady?
    ensures InOrder(Moved(w, id, o, addressesParse), c)
  {
    hide InOrder, ToRow, Sound, OneOpen, ThreadGood, LiveRefresher;
    var w' := Moved(w, id, o, addressesParse);
    assert CopyLogged(w, c);
    var what := w'.threads[id].what;
    if c == RowCopy || c == CopyOf(what) {
      CommitIsUnderway(w, w', id, c);
    } else {
      UntouchedStaysInOrder(w, w', id, c);
    }
  }

  lemma SaveStaysInOrder(w: World, id: nat, o: Oracle, addressesParse: bool, c: Copy)
    requires Inv(w) && InOrder(w, c) && id < |w.threads| && w.threads[id].Saving?
    requires Orderly(w, Move(id, o, addressesParse))
    ensures InOrder(Moved(w, id, o, addressesParse), c)
  {
    hide InOrder, ToRow, Sound, OneOpen;
    var w', t := Moved(w, id, o, addressesParse), w.threads[id];
    assert CopyLogged(w, c) && ThreadGood(w, t);
    if c == RowCopy {
      assert t.no == w.latest.row ==> Matches(w'.sys, RowCopy);
      OrderlyWriteStaysInOrder(w, w', id, c);
    } else {
      UntouchedStaysInOrder(w, w', id, c);
    }
  }

  lemma PublicationStaysInOrder(w: World, id: nat, o: Oracle, addressesParse: bool, c: Copy)
    requires Inv(w) && InOrder(w, c) && id < |w.threads| && w.threads[id].Publishing?
    requires Orderly(w, Move(id, o, addressesParse))
    ensures InOrder(Moved(w, id, o, addressesParse), c)
  {
    hide InOrder, ToRow, Sound, OneOpen;
    var w', t := Moved(w, id, o, addressesParse), w.threads[id];
    assert CopyLogged(w, c) && ThreadGood(w, t);
    if c == CopyOf(t.what) {
      assert t.no == w.latest.Of(c) ==> Matches(w'.sys, c);
      OrderlyWriteStaysInOrder(w, w', id, c);
    } else {
      UntouchedStaysInOrder(w, w', id, c);
    }
  }

  lemma OtherStepStaysInOrder(w: World, id: nat, o: Oracle, addressesParse: bool, c: Copy)
    requires InOrder(w, c) && id < |w.threads|
    requires var t := w.threads[id];
             t.RefreshStart? || t.RefreshRead? || t.RefreshFailed? || t.EmailPosted? || t.Finishing? || t.Done?
    ensures InOrder(Moved(w, id, o, addressesParse), c)
  {
    hide InOrder, ToRow, FromRecord, NewEmail, ValidEmail;
    UntouchedStaysInOrder(w, Moved(w, id, o, addressesParse), id, c);
  }

  lemma MoveStaysInOrder(w: World, id: nat, o: Oracle, addressesParse: bool, c: Copy)
    requires Inv(w) && InOrder(w, c) && id < |w.threads| && Orderly(w, Move(id, o, addressesParse))
    ensures InOrder(Moved(w, id, o, addressesParse), c)
  {
    hide Inv, InOrder, Moved, Orderly;
    match w.threads[id] {
      case Saving(_, _, _, _) => SaveStaysInOrder(w, id, o, addressesParse, c);
      case Publishing(_, _) => PublicationStaysInOrder(w, id, o, addressesParse, c);
      case RefreshLoaded(_, _, _) => CommitStaysInOrder(w, id, o, addressesParse, c);
      case SourceReady(_, _, _, _) => CommitStaysInOrder(w, id, o, addressesParse, c);
      case WebhookReady(_) => CommitStaysInOrder(w, id, o, addressesParse, c);
      case EmailReady(_) => CommitStaysInOrder(w, id, o, addressesParse, c);
      case _ => OtherStepStaysInOrder(w, id, o, addressesParse, c);
    }
  }

  lemma SpawnStaysInOrder(w: World, t: Thread, c: Copy)
    requires InOrder(w, c) && !Owes(t, c)
    ensures InOrder(Spawn(w, t), c)
  {
    hide Matches, Marks.Of;
    var w' := Spawn(w, t);
    assert forall n :: 0 <= n < |w.threads| ==> w'.threads[n] == w.threads[n];
    if Underway(w, c) {
      var n :| 0 <= n < |w.threads| && Owes(w.threads[n], c) && w.threads[n].no == w.latest.Of(c);
      assert Owes(w'.threads[n], c) && w'.threads[n].no == w'.latest.Of(c);
    }
  }

  lemma BootIsInOrder(row: Option<Row>, readable: bool, rec: Option<Record>, w: World, c: Copy)
    requires Restorable(row, readable, rec)
    ensures InOrder(Booted(row, readable, rec, w), c)
  {
    BootAgreesIff(row, readable, rec);
    AgreeIffAllMatch(Boot(row, readable, rec));
    hide Agree, Boot, Restorable, Matches, Owes, LiveRefresher;
    var w' := Booted(row, readable, rec, w);
    assert w'.sys == Boot(row, readable, rec) && w'.threads == [];
    assert Settled(w', c);
  }

  lemma NextStaysInOrder(w: World, e: Event, c: Copy)
    requires Inv(w) && InOrder(w, c) && Orderly(w, e)
    ensures InOrder(Next(w, e), c)
  {
    hide Inv, InOrder, Moved, Booted, TrimSpace, Blank, FromRecord, Spawn, Restorable;
    match e {
      case Move(id, o, addressesParse) =>
        if id < |w.threads| { MoveStaysInOrder(w, id, o, addressesParse, c); }
      case Crash(readable, rec) => BootIsInOrder(w.sys.row, readable, rec, w, c);
      case Tick => SpawnStaysInOrder(w, RefreshStart, c);
      case SourceArrives(src, interval, sourceLabel, rec) =>
        if Loaded(rec).Some? { SpawnStaysInOrder(w, SourceReady(src, interval, sourceLabel, Loaded(rec).value), c); }
      case WebhookArrives(url) =>
        SpawnStaysInOrder(w, Finishing, c);
        SpawnStaysInOrder(w, WebhookReady(TrimSpace(url)), c);
      case EmailArrives(form) =>
        SpawnStaysInOrder(w, Finishing, c);
        SpawnStaysInOrder(w, EmailPosted(form), c);
    }
  }

  lemma {:induction false} RunStaysInOrder(w: World, events: seq<Event>, c: Copy)
    requires Inv(w) && InOrder(w, c) && AllOrderly(w, events)
    ensures InOrder(RunAll(w, events), c)
    decreases |events|
  {
    hide Inv, InOrder, Next, Orderly;
    if events != [] {
      var front := events[..|events| - 1];
      assert forall n :: 0 <= n < |front| ==> events[..n] == front[..n];
      RunStaysInOrder(w, front, c);
      RunKeepsInv(w, front);
      assert Orderly(RunAll(w, events[..|front|]), events[|front|]);
      NextStaysInOrder(RunAll(w, front), events[|front|], c);
    }
  }

  /** Handlers may overlap at will: if the run is orderly, all copies agree whenever nothing is under way. */
  lemma {:induction false} OrderlyRunsAgreeWhenQuiet(seed: Option<Config>, readable: bool,
                                                     rec: Option<Record>, events: seq<Event>)
    requires Orderly(Before(seed), Crash(readable, rec)) && AllOrderly(Start(seed, readable, rec), events)
    ensures var w := RunAll(Start(seed, readable, rec), events);
            Quiet(w) ==> Agree(w.sys)
  {
    StartIsInv(seed, readable, rec);
    var start, before := Start(seed, readable, rec), Before(seed);
    forall c: Copy | true
      ensures InOrder(start, c)
    {
      BootIsInOrder(before.sys.row, readable, rec, before, c);
    }
    hide Inv, Start, Before, InOrder, Agree, Orderly, AllOrderly, RunAll;
    var w := RunAll(start, events);
    forall c: Copy | true
      ensures InOrder(w, c)
    {
      RunStaysInOrder(start, events, c);
    }
    if Quiet(w) {
      QuietIsSettled(w);
      AgreeIffAllMatch(w.sys);
    }
  }

  lemma QuietIsSettled(w: World)
    requires Quiet(w) && forall c: Copy :: InOrder(w, c)
    ensures forall c: Copy :: Matches(w.sys, c)
  {
    hide Matches;
    forall c: Copy | true
      ensures Matches(w.sys, c)
    {
      assert InOrder(w, c);
    }
  }

  // ---------------------------------------------------------------------------
  // Order matters
  // ---------------------------------------------------------------------------

  const Yes := Oracle(None, true, Zero)
  const First := Move(0, Yes, false)
  const Second := Move(1, Yes, false)

  /** What the steps of a webhook post do, one by one. */
  lemma WebhookStep(w: World, id: nat)
    requires id < |w.threads|
    ensures var w', t := Next(w, Move(id, Yes, false)), w.threads[id];
            && (t.WebhookReady? ==>
                  var cfg := w.sys.cfg.(webhookURL := t.url);
                  && w'.sys == w.sys.(cfg := cfg)
                  && w'.threads == w.threads[id := Saving(|w.log|, cfg, PublishWebhook(t.url), false)])
            && (t.Saving? ==> w'.sys == w.sys.(row := Some(ToRow(t.cfgCopy)))
                              && w'.threads == w.threads[id := Publishing(t.no, t.what)])
            && (t.Publishing? && t.what.PublishWebhook? ==>
                  && w'.sys == w.sys.(endpoint := w.sys.endpoint.(webhookURL := t.what.url))
                  && w'.threads == w.threads[id := Finishing])
            && (t.Finishing? ==> w'.sys == w.sys.(onboarding := false) && w'.threads == w.threads[id := Done])
  {
    hide ToRow;
  }

  lemma {:induction false} RunAllConcat(w: World, xs: seq<Event>, ys: seq<Event>)
    ensures RunAll(w, xs + ys) == RunAll(RunAll(w, xs), ys)
    decreases |ys|
  {
    hide Next;
    if ys == [] {
      assert xs + ys == xs;
    } else {
      assert (xs + ys)[..|xs + ys| - 1] == xs + ys[..|ys| - 1];
      RunAllConcat(w, xs, ys[..|ys| - 1]);
    }
  }

  ghost predicate BothPublishing(w: World, a: string, b: string) {
    && |w.threads| == 2 && w.threads[0].Publishing? && w.threads[1].Publishing?
    && w.threads[0].what == PublishWebhook(a) && w.threads[1].what == PublishWebhook(b)
  }

  /** Both commit, and the second is saved before the first. */
  lemma SavesCross(w: World, a: string, b: string)
    requires w.threads == [WebhookReady(a), WebhookReady(b)]
    ensures var w' := RunAll(w, [First, Second, Second, First]);
            && BothPublishing(w', a, b) && w'.sys.cfg.webhookURL == b
            && w'.sys.row.Some? && w'.sys.row.value.webhookURL == a
  {
    hide Next, RunAll;
    WebhookStep(w, 0);
    var w1 := Next(w, First);
    WebhookStep(w1, 1);
    var w2 := Next(w1, Second);
    var older, newer := w1.sys.cfg, w2.sys.cfg;
    assert w2.threads
           == [Saving(|w.log|, older, PublishWebhook(a), false), Saving(|w1.log|, newer, PublishWebhook(b), false)];
    WebhookStep(w2, 1);
    var w3 := Next(w2, Second);
    WebhookStep(w3, 0);
    var w4 := Next(w3, First);
    assert w4.threads == [Publishing(|w.log|, PublishWebhook(a)), Publishing(|w1.log|, PublishWebhook(b))];
    assert ToRow(older).webhookURL == a;
    RunUnfolds(w, [First, Second, Second, First], [w, w1, w2, w3, w4]);
  }

  /** Both publish and finish; the row and the admin's memory stay. */
  lemma BothFinish(w: World, a: string, b: string)
    requires BothPublishing(w, a, b)
    ensures var w' := RunAll(w, [First, First, Second, Second]);
            w'.threads == [Done, Done] && w'.sys.row == w.sys.row && w'.sys.cfg == w.sys.cfg
  {
    hide Next, RunAll, ToRow;
    WebhookStep(w, 0);
    var w1 := Next(w, First);
    WebhookStep(w1, 0);
    var w2 := Next(w1, First);
    WebhookStep(w2, 1);
    var w3 := Next(w2, Second);
    WebhookStep(w3, 1);
    var w4 := Next(w3, Second);
    assert w4.threads == [Done, Done];
    RunUnfolds(w, [First, First, Second, Second], [w, w1, w2, w3, w4]);
  }

  lemma WebhooksArrive(w: World, a: string, b: string)
    requires w.threads == [] && TrimSpace(a) == a != "" && TrimSpace(b) == b != ""
    ensures RunAll(w, [WebhookArrives(a), WebhookArrives(b)]).threads == [WebhookReady(a), WebhookReady(b)]
  {
    hide TrimSpace;
    var w1 := Next(w, WebhookArrives(a));
    RunUnfolds(w, [WebhookArrives(a), WebhookArrives(b)], [w, w1, Next(w1, WebhookArrives(b))]);
  }

  /** Two webhook posts whose saves cross, on any database: both succeed, and the row keeps the older address. */
  lemma {:induction false} CrossingSavesLoseUpdate(seed: Option<Config>, readable: bool,
                                                   rec: Option<Record>, a: string, b: string)
    returns (events: seq<Event>)
    requires TrimSpace(a) == a != "" && TrimSpace(b) == b != "" && a != b
    ensures var w := RunAll(Start(seed, readable, rec), events);
            && Quiet(w) && w.sys.cfg.webhookURL == b
            && w.sys.row.Some? && w.sys.row.value.webhookURL == a && !Agree(w.sys)
  {
    var arriving, crossing, finishing :=
      [WebhookArrives(a), WebhookArrives(b)], [First, Second, Second, First], [First, First, Second, Second];
    events := arriving + crossing + finishing;
    var w := Start(seed, readable, rec);
    NothingRunsAtStart(seed, readable, rec);
    hide TrimSpace, RunAll, Start, BothPublishing;
    WebhooksArrive(w, a, b);
    SavesCross(RunAll(w, arriving), a, b);
    BothFinish(RunAll(RunAll(w, arriving), crossing), a, b);
    RunAllConcat(w, arriving + crossing, finishing);
    RunAllConcat(w, arriving, crossing);
  }
}
