/**
  resolve as it is, internal/booking/store.go:161-191: the SELECT with its checks
  is one step and the UPDATE another, and other requests come in between.
  */
module BookingInterleaved {
  import opened Strings
  import opened Booking

  /** A resolution between its SELECT, which saw `seen` at step `since`, and its UPDATE. */
  datatype Resolver = Selected(seen: Request, next: Status, now: Instant, since: nat) | Returned

  /** A resolution that went through, with the steps of its SELECT and its UPDATE. */
  datatype Success = Success(seen: Request, next: Status, now: Instant, since: nat, until: nat)

  /** `clock` counts steps and `successes` records what went through, in order. */
  datatype World = World(rows: Table, resolvers: seq<Resolver>, clock: nat, successes: seq<Success>)

  const Initial := World([], [], 0, [])

  datatype Event =
    | Insert(name: string, contact: string, need: string, draw: Option<Draw>, now: Instant)
    | Select(token: string, next: Status, now: Instant)
    | Update(resolver: nat)

  function Stepped(w: World, e: Event): World {
    match e
    case Insert(name, contact, need, draw, now) => w.(rows := Enqueued(w.rows, name, contact, need, draw, now).0)
    case Select(token, next, now) =>
      (match Checked(w.rows, token, now)
       case Err(_) => w
       case Ok(r) => w.(resolvers := w.resolvers + [Selected(r, next, now, w.clock)]))
    case Update(n) =>
      if n < |w.resolvers| && w.resolvers[n].Selected? then
        var s := w.resolvers[n];
        w.(rows := Updated(w.rows, s.seen.token, s.next), resolvers := w.resolvers[n := Returned],
           successes := w.successes + [Success(s.seen, s.next, s.now, s.since, w.clock)])
      else w
  }

  /** No condition on the row's status: the UPDATE does not look again. */
  function Next(w: World, e: Event): World {
    Stepped(w, e).(clock := w.clock + 1)
  }

  function Run(w: World, events: seq<Event>): World {
    if events == [] then w else Next(Run(w, events[..|events| - 1]), events[|events| - 1])
  }

  predicate FinalOnly(events: seq<Event>) {
    forall n :: 0 <= n < |events| && events[n].Select? ==> events[n].next != Pending
  }

  // ---------------------------------------------------------------------------
  // What every interleaving keeps
  // ---------------------------------------------------------------------------

  /** What a SELECT let through: a row of this token, pending and not expired when it was read. */
  ghost predicate Legitimate(seen: Request, next: Status, now: Instant) {
    seen.status == Pending && now <= seen.expiresAt && next != Pending
  }

  /** The last success for a token, if there is one. */
  ghost function Last(successes: seq<Success>, token: string): Option<Success> {
    if successes == [] then None
    else if successes[|successes| - 1].seen.token == token then Some(successes[|successes| - 1])
    else Last(successes[..|successes| - 1], token)
  }

  /** A row is what its insertion made it, with the status of the last success for its token. */
  ghost predicate RowExplained(w: World, r: Request) {
    match Last(w.successes, r.token)
    case None => r.status == Pending
    case Some(s) => r.status == s.next && r == s.seen.(status := s.next)
  }

  ghost predicate SuccessFits(w: World, s: Success) {
    && Legitimate(s.seen, s.next, s.now) && s.since < s.until < w.clock
    && exists n :: 0 <= n < |w.rows| && w.rows[n] == s.seen.(status := w.rows[n].status)
  }

  ghost predicate ResolverFits(w: World, q: Resolver) {
    q.Selected? ==>
      && Legitimate(q.seen, q.next, q.now) && q.since < w.clock
      && (exists n :: 0 <= n < |w.rows| && w.rows[n] == q.seen.(status := w.rows[n].status))
      && forall s :: s in w.successes && s.seen.token == q.seen.token ==> q.since < s.until
  }

  ghost predicate Overlapping(a: Success, b: Success) {
    a.since < b.until && b.since < a.until
  }

  ghost predicate Inv(w: World) {
    && Unique(w.rows)
    && (forall n :: 0 <= n < |w.rows| ==> RowExplained(w, w.rows[n]))
    && (forall n :: 0 <= n < |w.successes| ==> SuccessFits(w, w.successes[n]))
    && (forall n :: 0 <= n < |w.resolvers| ==> ResolverFits(w, w.resolvers[n]))
    && (forall m, n :: 0 <= m < n < |w.successes| && w.successes[m].seen.token == w.successes[n].seen.token ==>
                         Overlapping(w.successes[m], w.successes[n]))
  }

  lemma {:induction false} LastIsLast(successes: seq<Success>, token: string)
    ensures match Last(successes, token)
            case None => forall s :: s in successes ==> s.seen.token != token
            case Some(s) => s in successes && s.seen.token == token
    decreases |successes|
  {
    if successes != [] {
      var front := successes[..|successes| - 1];
      LastIsLast(front, token);
      assert successes == front + [successes[|successes| - 1]];
    }
  }

  lemma InsertKeepsInv(w: World, e: Event)
    requires Inv(w) && e.Insert?
    ensures Inv(Next(w, e))
  {
    var w' := Next(w, e);
    StepKeepsUnique(w.rows, Enqueue(e.name, e.contact, e.need, e.draw, e.now));
    assert w'.successes == w.successes && w'.resolvers == w.resolvers;
    hide Unique, Legitimate, Last, Overlapping;
    if |w'.rows| > |w.rows| {
      var r := w'.rows[|w.rows|];
      LastIsLast(w.successes, r.token);
      forall s | s in w.successes
        ensures s.seen.token != r.token
      {
        var m :| 0 <= m < |w.successes| && w.successes[m] == s;
        assert SuccessFits(w, w.successes[m]);
      }
    }
    assert forall n :: 0 <= n < |w.rows| ==> w'.rows[n] == w.rows[n];
    forall n | 0 <= n < |w.successes|
      ensures SuccessFits(w', w'.successes[n])
    {
      assert SuccessFits(w, w.successes[n]);
    }
    forall n | 0 <= n < |w.resolvers|
      ensures ResolverFits(w', w'.resolvers[n])
    {
      assert ResolverFits(w, w.resolvers[n]);
    }
    forall n | 0 <= n < |w'.rows|
      ensures RowExplained(w', w'.rows[n])
    {
      assert n < |w.rows| ==> RowExplained(w, w.rows[n]);
    }
  }

  lemma SelectKeepsInv(w: World, e: Event)
    requires Inv(w) && e.Select? && e.next != Pending
    ensures Inv(Next(w, e))
  {
    var w' := Next(w, e);
    if Checked(w.rows, e.token, e.now).Ok? {
      var n := FindToken(w.rows, e.token).value;
      assert RowExplained(w, w.rows[n]);
      LastIsLast(w.successes, e.token);
      assert w.rows[n] == w.rows[n].(status := w.rows[n].status);
    }
    forall n | 0 <= n < |w'.resolvers|
      ensures ResolverFits(w', w'.resolvers[n])
    {
      assert n < |w.resolvers| ==> ResolverFits(w, w.resolvers[n]);
    }
    forall n | 0 <= n < |w'.successes|
      ensures SuccessFits(w', w'.successes[n])
    {
      assert SuccessFits(w, w.successes[n]);
    }
    forall n | 0 <= n < |w'.rows|
      ensures RowExplained(w', w'.rows[n])
    {
      assert RowExplained(w, w.rows[n]);
    }
  }

  /** A row present before an UPDATE is present after it, but for its status. */
  lemma RowSurvives(w: World, w': World, r: Request)
    requires |w.rows| == |w'.rows|
    requires forall n :: 0 <= n < |w.rows| ==> w'.rows[n] == w.rows[n].(status := w'.rows[n].status)
    requires exists n :: 0 <= n < |w.rows| && w.rows[n] == r.(status := w.rows[n].status)
    ensures exists n :: 0 <= n < |w'.rows| && w'.rows[n] == r.(status := w'.rows[n].status)
  {
    var n :| 0 <= n < |w.rows| && w.rows[n] == r.(status := w.rows[n].status);
    assert w'.rows[n] == r.(status := w'.rows[n].status);
  }

  lemma UpdatedRowExplained(w: World, k: nat, n: nat)
    requires Inv(w) && k < |w.resolvers| && w.resolvers[k].Selected? && n < |w.rows|
    ensures var w' := Next(w, Update(k)); RowExplained(w', w'.rows[n])
  {
    var q, w' := w.resolvers[k], Next(w, Update(k));
    assert ResolverFits(w, q) && RowExplained(w, w.rows[n]);
    var s := w'.successes[|w.successes|];
    assert w'.successes[..|w.successes|] == w.successes;
    if w.rows[n].token == q.seen.token {
      var m :| 0 <= m < |w.rows| && w.rows[m] == q.seen.(status := w.rows[m].status);
      UniqueRow(w.rows, q.seen.token, m);
      UniqueRow(w.rows, q.seen.token, n);
    }
  }

  lemma IdleKeepsInv(w: World)
    requires Inv(w)
    ensures Inv(w.(clock := w.clock + 1))
  {
    hide Unique, Legitimate, Last;
    var w' := w.(clock := w.clock + 1);
    forall n | 0 <= n < |w.rows|
      ensures RowExplained(w', w.rows[n])
    {
      assert RowExplained(w, w.rows[n]);
    }
    forall n | 0 <= n < |w.successes|
      ensures SuccessFits(w', w.successes[n])
    {
      assert SuccessFits(w, w.successes[n]);
    }
    forall n | 0 <= n < |w.resolvers|
      ensures ResolverFits(w', w.resolvers[n])
    {
      assert ResolverFits(w, w.resolvers[n]);
    }
  }

  /** What an UPDATE leaves of the world, without the table's particulars. */
  ghost predicate UpdateOf(w: World, k: nat, w': World)
    requires k < |w.resolvers| && w.resolvers[k].Selected?
  {
    var q := w.resolvers[k];
    && w'.resolvers == w.resolvers[k := Returned] && w'.clock == w.clock + 1
    && w'.successes == w.successes + [Success(q.seen, q.next, q.now, q.since, w.clock)]
    && |w'.rows| == |w.rows|
    && forall n :: 0 <= n < |w.rows| ==> w'.rows[n] == w.rows[n].(status := w'.rows[n].status)
  }

  lemma SuccessesStillFit(w: World, k: nat, w': World)
    requires Inv(w) && k < |w.resolvers| && w.resolvers[k].Selected? && UpdateOf(w, k, w')
    ensures forall n :: 0 <= n < |w'.successes| ==> SuccessFits(w', w'.successes[n])
  {
    hide Unique, RowExplained, Legitimate;
    assert ResolverFits(w, w.resolvers[k]);
    forall n | 0 <= n < |w'.successes|
      ensures SuccessFits(w', w'.successes[n])
    {
      if n < |w.successes| {
        assert SuccessFits(w, w.successes[n]);
        RowSurvives(w, w', w.successes[n].seen);
      } else {
        RowSurvives(w, w', w.resolvers[k].seen);
      }
    }
  }

  lemma ResolversStillFit(w: World, k: nat, w': World)
    requires Inv(w) && k < |w.resolvers| && w.resolvers[k].Selected? && UpdateOf(w, k, w')
    ensures forall n :: 0 <= n < |w'.resolvers| ==> ResolverFits(w', w'.resolvers[n])
  {
    hide Unique, RowExplained, Legitimate;
    forall n | 0 <= n < |w'.resolvers|
      ensures ResolverFits(w', w'.resolvers[n])
    {
      assert ResolverFits(w, w.resolvers[n]);
      if w'.resolvers[n].Selected? { RowSurvives(w, w', w.resolvers[n].seen); }
    }
  }

  lemma SuccessesStillOverlap(w: World, k: nat, w': World)
    requires Inv(w) && k < |w.resolvers| && w.resolvers[k].Selected? && UpdateOf(w, k, w')
    ensures forall m, n :: 0 <= m < n < |w'.successes| && w'.successes[m].seen.token == w'.successes[n].seen.token ==>
                             Overlapping(w'.successes[m], w'.successes[n])
  {
    hide Unique, RowExplained, Legitimate;
    assert ResolverFits(w, w.resolvers[k]);
    forall m, n | 0 <= m < n < |w'.successes| && w'.successes[m].seen.token == w'.successes[n].seen.token
      ensures Overlapping(w'.successes[m], w'.successes[n])
    {
      assert SuccessFits(w, w.successes[m]) && w.successes[m] in w.successes;
    }
  }

  lemma UpdateKeepsInv(w: World, k: nat)
    requires Inv(w)
    ensures Inv(Next(w, Update(k)))
  {
    var w' := Next(w, Update(k));
    if k < |w.resolvers| && w.resolvers[k].Selected? {
      var q := w.resolvers[k];
      UpdateKeepsTokens(w.rows, q.seen.token, q.next);
      SameTokensUnique(w.rows, w'.rows);
      forall n | 0 <= n < |w'.rows|
        ensures RowExplained(w', w'.rows[n])
      {
        UpdatedRowExplained(w, k, n);
      }
      assert UpdateOf(w, k, w');
      hide Unique, RowExplained, UpdateOf, SuccessFits, ResolverFits, Overlapping;
      SuccessesStillFit(w, k, w');
      ResolversStillFit(w, k, w');
      SuccessesStillOverlap(w, k, w');
    } else {
      IdleKeepsInv(w);
    }
  }

  lemma {:induction false} RunKeepsInv(events: seq<Event>)
    requires FinalOnly(events)
    ensures Inv(Run(Initial, events))
    decreases |events|
  {
    if events != [] {
      var front, e := events[..|events| - 1], events[|events| - 1];
      RunKeepsInv(front);
      hide Inv, Next;
      match e {
        case Insert(_, _, _, _, _) => InsertKeepsInv(Run(Initial, front), e);
        case Select(_, _, _) => SelectKeepsInv(Run(Initial, front), e);
        case Update(k) => UpdateKeepsInv(Run(Initial, front), k);
      }
    }
  }

  // ---------------------------------------------------------------------------
  // The theorems
  // ---------------------------------------------------------------------------

  /** A row is pending exactly while nothing has gone through for its token; then it is what the last success says. */
  lemma FinalStatusIsLegitimate(events: seq<Event>, n: nat)
    requires FinalOnly(events) && n < |Run(Initial, events).rows|
    ensures var w, r := Run(Initial, events), Run(Initial, events).rows[n];
            && (r.status == Pending <==> forall s :: s in w.successes ==> s.seen.token != r.token)
            && (r.status != Pending ==>
                  exists s :: s in w.successes && s.seen.token == r.token && s.next == r.status
                              && s.seen.status == Pending && s.now <= s.seen.expiresAt == r.expiresAt)
  {
    RunKeepsInv(events);
    var w, r := Run(Initial, events), Run(Initial, events).rows[n];
    assert RowExplained(w, r);
    LastIsLast(w.successes, r.token);
    if Last(w.successes, r.token).Some? {
      var s := Last(w.successes, r.token).value;
      var m :| 0 <= m < |w.successes| && w.successes[m] == s;
      assert SuccessFits(w, w.successes[m]);
    }
  }

  lemma {:induction false} SuccessesGrow(events: seq<Event>, i: nat)
    requires i <= |events|
    ensures Run(Initial, events[..i]).successes <= Run(Initial, events).successes
    ensures |Run(Initial, events[..i]).rows| <= |Run(Initial, events).rows|
    ensures forall n :: 0 <= n < |Run(Initial, events[..i]).rows| ==>
                          Run(Initial, events).rows[n].token == Run(Initial, events[..i]).rows[n].token
    decreases |events|
  {
    if i == |events| {
      assert events[..i] == events;
    } else {
      var front := events[..|events| - 1];
      assert front[..i] == events[..i];
      SuccessesGrow(front, i);
    }
  }

  /** No row ever goes back to pending. */
  lemma NeverPendingAgain(events: seq<Event>, i: nat, n: nat)
    requires FinalOnly(events) && i <= |events| && n < |Run(Initial, events[..i]).rows|
    requires Run(Initial, events[..i]).rows[n].status != Pending
    ensures n < |Run(Initial, events).rows| && Run(Initial, events).rows[n].status != Pending
  {
    SuccessesGrow(events, i);
    FinalStatusIsLegitimate(events[..i], n);
    FinalStatusIsLegitimate(events, n);
    var before, after := Run(Initial, events[..i]), Run(Initial, events);
    var s :| s in before.successes && s.seen.token == before.rows[n].token;
    assert s in after.successes;
  }

  /** Two successes for one token overlap: neither was selected after the other's update. */
  lemma RivalsOverlap(events: seq<Event>, m: nat, n: nat)
    requires FinalOnly(events) && m < n < |Run(Initial, events).successes|
    requires Run(Initial, events).successes[m].seen.token == Run(Initial, events).successes[n].seen.token
    ensures Overlapping(Run(Initial, events).successes[m], Run(Initial, events).successes[n])
  {
    RunKeepsInv(events);
  }

  /** They can: both a confirm and a deny of one pending row go through, and the later update wins. */
  lemma BothCanSucceed(w: World, token: string, now: Instant)
    requires Checked(w.rows, token, now).Ok?
    ensures var k := |w.resolvers|;
            var w' := Next(Next(Next(Next(w, Select(token, Confirmed, now)), Select(token, Denied, now)),
                                Update(k)), Update(k + 1));
            && |w'.successes| == |w.successes| + 2
            && w'.successes[|w.successes|].next == Confirmed && w'.successes[|w.successes| + 1].next == Denied
            && w'.rows == Updated(Updated(w.rows, token, Confirmed), token, Denied)
            && exists n :: 0 <= n < |w'.rows| && w'.rows[n].token == token && w'.rows[n].status == Denied
  {
    var n := FindToken(w.rows, token).value;
    var r := Checked(w.rows, token, now).value;
    assert r == w.rows[n] && r.token == token;
    hide FindToken, Checked;
    var w1 := Next(w, Select(token, Confirmed, now));
    var w2 := Next(w1, Select(token, Denied, now));
    assert w2.rows == w.rows && w2.successes == w.successes;
    assert w2.resolvers == w.resolvers + [Selected(r, Confirmed, now, w.clock), Selected(r, Denied, now, w.clock + 1)];
    var w3 := Next(w2, Update(|w.resolvers|));
    var w4 := Next(w3, Update(|w.resolvers| + 1));
    assert w4.rows[n].token == token && w4.rows[n].status == Denied;
  }

  /** A resolution with nothing in between is the atomic one. */
  lemma UninterruptedResolve(w: World, token: string, next: Status, now: Instant)
    ensures Checked(w.rows, token, now).Ok? ==>
              Next(Next(w, Select(token, next, now)), Update(|w.resolvers|)).rows == Resolved(w.rows, token, next, now).0
    ensures Checked(w.rows, token, now).Err? ==>
              Next(w, Select(token, next, now)).rows == Resolved(w.rows, token, next, now).0
  {
  }

  /** An UPDATE makes a second success exactly when the check it does not repeat would now say "already used". */
  lemma SecondSuccessIff(events: seq<Event>, k: nat)
    requires FinalOnly(events)
    requires k < |Run(Initial, events).resolvers| && Run(Initial, events).resolvers[k].Selected?
    ensures var w := Run(Initial, events);
            var q := w.resolvers[k];
            (exists s :: s in w.successes && s.seen.token == q.seen.token)
            <==> Checked(w.rows, q.seen.token, q.now) == Err(AlreadyUsed)
  {
    RunKeepsInv(events);
    var w := Run(Initial, events);
    var q := w.resolvers[k];
    assert ResolverFits(w, q);
    var n :| 0 <= n < |w.rows| && w.rows[n] == q.seen.(status := w.rows[n].status);
    UniqueRow(w.rows, q.seen.token, n);
    FinalStatusIsLegitimate(events, n);
  }
}
