/**
  Which public requests change the queue: bookIntake and resolveToken of
  internal/endpoint/booking.go, and the status lookups.
  */
module PublicRequests {
  import opened Strings
  import opened Booking

  const MAX_FIELD_LEN := 500

  const SENT := "Your request has been sent to the provider. They'll confirm shortly."
  const QUEUED := "This request has been queued for provider review. If this is urgent, "
    + "contacting them by phone directly may be faster."

  datatype Verb = Get | Post | Other

  /** Where intakes are announced, and whether the announcement arrives. */
  datatype Delivery = Delivery(emailTo: string, webhookURL: string, emailArrives: bool, webhookArrives: bool)

  datatype Visit =
    | Book(name: string, contact: string, need: string, draw: Option<Draw>, now: Instant, delivery: Delivery)
    | Lookup(statusToken: string)
    | Action(verb: Verb, token: string, next: Status, at: Instant)

  datatype Answer =
    | Invalid
    | NotQueued
    | Accepted(statusToken: string, message: string)
    | Page
    | Done
    | Refused(problem: Problem)
    | NotAllowed
    | Reported(status: Status)

  predicate ValidIntake(name: string, contact: string, need: string) {
    && TrimSpace(name) != "" && TrimSpace(need) != ""
    && |TrimSpace(name)| <= MAX_FIELD_LEN && |TrimSpace(contact)| <= MAX_FIELD_LEN && |TrimSpace(need)| <= MAX_FIELD_LEN
  }

  /** E-mail has precedence; the webhook is not tried after it. */
  function Message(d: Delivery): string {
    if d.emailTo != "" then (if d.emailArrives then SENT else QUEUED)
    else if d.webhookURL != "" then (if d.webhookArrives then SENT else QUEUED)
    else QUEUED
  }

  function Served(rows: Table, v: Visit): (Table, Answer) {
    match v
    case Book(name, contact, need, draw, now, delivery) =>
      if !ValidIntake(name, contact, need) then (rows, Invalid) else
        (match Enqueued(rows, TrimSpace(name), TrimSpace(contact), TrimSpace(need), draw, now)
         case (rows', Ok(r)) => (rows', Accepted(r.statusToken, Message(delivery)))
         case (rows', Err(_)) => (rows', NotQueued))
    case Lookup(statusToken) =>
      if statusToken == "" then (rows, Invalid) else
        (match StatusOf(rows, statusToken)
         case Ok(r) => (rows, Reported(r.status))
         case Err(problem) => (rows, Refused(problem)))
    case Action(verb, token, next, at) =>
      if token == "" then (rows, Invalid)
      else match verb
        case Get => (rows, Page)
        case Post =>
          (match Resolved(rows, token, next, at)
           case (rows', Ok(_)) => (rows', Done)
           case (rows', Err(problem)) => (rows', Refused(problem)))
        case Other => (rows, NotAllowed)
  }

  function ServedAll(rows: Table, visits: seq<Visit>): Table {
    if visits == [] then rows else Served(ServedAll(rows, visits[..|visits| - 1]), visits[|visits| - 1]).0
  }

  /** The intake path as written: trim, check, enqueue, then settle the message by what was delivered. */
  method BookIntake(store: Store, name0: string, contact0: string, need0: string,
                    draw: Option<Draw>, now: Instant, delivery: Delivery) returns (answer: Answer)
    modifies store
    ensures (store.rows, answer) == Served(old(store.rows), Book(name0, contact0, need0, draw, now, delivery))
  {
    hide TrimSpace;
    var name, contact, need := TrimSpace(name0), TrimSpace(contact0), TrimSpace(need0);
    if name == "" || need == "" {
      return Invalid;
    }
    if |name| > MAX_FIELD_LEN || |contact| > MAX_FIELD_LEN || |need| > MAX_FIELD_LEN {
      return Invalid;
    }
    var req := store.Enqueue(name, contact, need, draw, now);
    if req.Err? {
      return NotQueued;
    }
    var message := QUEUED;
    if delivery.emailTo != "" {
      if delivery.emailArrives {
        message := SENT;
      }
    } else if delivery.webhookURL != "" {
      if delivery.webhookArrives {
        message := SENT;
      }
    }
    answer := Accepted(req.value.statusToken, message);
  }

  method ResolveToken(store: Store, verb: Verb, token: string, next: Status, at: Instant) returns (answer: Answer)
    modifies store
    ensures (store.rows, answer) == Served(old(store.rows), Action(verb, token, next, at))
  {
    if token == "" {
      return Invalid;
    }
    match verb {
      case Get => answer := Page;
      case Post =>
        var result := store.Resolve(token, next, at);
        answer := match result case Ok(_) => Done case Err(problem) => Refused(problem);
      case Other => answer := NotAllowed;
    }
  }

  // ---------------------------------------------------------------------------
  // What can change the table
  // ---------------------------------------------------------------------------

  lemma ResolutionChanges(rows: Table, token: string, next: Status, at: Instant)
    requires next != Pending
    ensures Resolved(rows, token, next, at).0 != rows <==> Resolved(rows, token, next, at).1.Ok?
  {
    if Checked(rows, token, at).Ok? {
      var n := FindToken(rows, token).value;
      assert Updated(rows, token, next)[n] != rows[n];
    }
  }

  lemma InsertionChanges(rows: Table, name: string, contact: string, need: string, draw: Option<Draw>, now: Instant)
    ensures var (rows', result) := Enqueued(rows, name, contact, need, draw, now);
            rows' != rows <==> result.Ok?
  {
    assert forall r: Request :: |rows + [r]| == |rows| + 1;
  }

  /** Exactly the accepted intakes and the successful posts change the table. */
  lemma ChangesIff(rows: Table, v: Visit)
    requires v.Action? ==> v.next != Pending
    ensures Served(rows, v).0 != rows <==> Served(rows, v).1.Accepted? || Served(rows, v).1.Done?
  {
    hide TrimSpace, Resolved, Enqueued;
    match v {
      case Book(name, contact, need, draw, now, _) =>
        InsertionChanges(rows, TrimSpace(name), TrimSpace(contact), TrimSpace(need), draw, now);
      case Lookup(_) =>
      case Action(_, token, next, at) =>
        ResolutionChanges(rows, token, next, at);
    }
  }

  /** An accepted intake appends one pending row with the trimmed fields, whether or not anybody is told. */
  lemma AcceptedAppendsOne(rows: Table, v: Visit)
    requires v.Book? && Served(rows, v).1.Accepted?
    ensures var rows' := Served(rows, v).0;
            && |rows'| == |rows| + 1 && rows'[..|rows|] == rows
            && var r := rows'[|rows|];
               && r.status == Pending
               && r.name == TrimSpace(v.name) && r.contact == TrimSpace(v.contact) && r.need == TrimSpace(v.need)
               && r.statusToken == Served(rows, v).1.statusToken && r.expiresAt == v.now + TOKEN_TTL
    ensures forall d :: Served(rows, v.(delivery := d)).0 == Served(rows, v).0
                        && Served(rows, v.(delivery := d)).1.Accepted?
  {
    hide TrimSpace;
  }

  /** A link that is opened only shows a page; other verbs, and links without a token, do nothing either. */
  lemma OpeningOnlyShows(rows: Table, token: string, next: Status, at: Instant)
    ensures token != "" ==> Served(rows, Action(Get, token, next, at)) == (rows, Page)
    ensures token != "" ==> Served(rows, Action(Other, token, next, at)) == (rows, NotAllowed)
    ensures forall verb :: Served(rows, Action(verb, "", next, at)) == (rows, Invalid)
    ensures Served(rows, Lookup("")) == (rows, Invalid)
  {
  }

  /** The requester is told the request was sent exactly if an announcement arrived, e-mail before webhook. */
  lemma SentIffAnnounced(d: Delivery)
    ensures Message(d) == SENT <==>
            (d.emailTo != "" && d.emailArrives) || (d.emailTo == "" && d.webhookURL != "" && d.webhookArrives)
    ensures Message(d) == SENT || Message(d) == QUEUED
  {
    assert |SENT| < 80 && |QUEUED| > 100;
  }

  /** An intake is accepted exactly if it names a person and a need, none of it over 500, and its draw is new. */
  lemma AcceptedIff(rows: Table, v: Visit)
    requires v.Book?
    ensures Served(rows, v).1.Accepted? <==>
            && !AllSpace(v.name) && !AllSpace(v.need)
            && |TrimSpace(v.name)| <= 500 && |TrimSpace(v.contact)| <= 500 && |TrimSpace(v.need)| <= 500
            && v.draw.Some? && Insertable(rows, v.draw.value)
    ensures Served(rows, v).1.Accepted? ==> Served(rows, v).1 == Accepted(v.draw.value.statusToken, Message(v.delivery))
  {
    EmptyIffAllSpace(v.name);
    EmptyIffAllSpace(v.need);
    hide TrimSpace, AllSpace, Insertable;
  }

  /** A fresh pending row resolves in time by its token, once, and its status token tells how. */
  lemma FreshRowResolves(rows: Table, n: nat, next: Status, at: Instant)
    requires AllFresh(rows) && n < |rows| && rows[n].status == Pending && at <= rows[n].expiresAt
    ensures var r := rows[n];
            var (resolved, answer) := Served(rows, Action(Post, r.token, next, at));
            && Served(rows, Lookup(r.statusToken)).1 == Reported(Pending)
            && answer == Done
            && Served(resolved, Lookup(r.statusToken)).1 == Reported(next)
            && (next != Pending ==> Served(resolved, Action(Post, r.token, next, at)).1 == Refused(AlreadyUsed))
  {
    var r := rows[n];
    assert r.token != "" && r.statusToken != "";
    FreshRowIsFound(rows, n);
    var resolved := Updated(rows, r.token, next);
    UpdateKeepsTokens(rows, r.token, next);
    SameTokensFresh(rows, resolved);
    FreshRowIsFound(resolved, n);
    hide AllFresh, FindToken, FindStatusToken, SameTokens;
  }

  /** Booked, confirmed or denied in time, and looked up: the requester is told which. */
  lemma BookedResolvedReported(rows: Table, book: Visit, next: Status, at: Instant)
    requires AllFresh(rows) && book.Book? && Served(rows, book).1.Accepted? && FreshDraw(rows, book.draw.value)
    requires at <= book.now + 48 * 3600 * 1_000_000_000
    ensures var d := book.draw.value;
            var booked := Served(rows, book).0;
            var (resolved, answer) := Served(booked, Action(Post, d.token, next, at));
            && Served(booked, Lookup(d.statusToken)).1 == Reported(Pending)
            && answer == Done
            && Served(resolved, Lookup(d.statusToken)).1 == Reported(next)
            && (next != Pending ==> Served(resolved, Action(Post, d.token, next, at)).1 == Refused(AlreadyUsed))
  {
    AcceptedIff(rows, book);
    BookedIsFresh(rows, book);
    hide Served, AllFresh, FreshDraw;
    FreshRowResolves(Served(rows, book).0, |rows|, next, at);
  }

  lemma BookedIsFresh(rows: Table, book: Visit)
    requires AllFresh(rows) && book.Book? && Served(rows, book).1.Accepted? && FreshDraw(rows, book.draw.value)
    ensures var booked, d := Served(rows, book).0, book.draw.value;
            && AllFresh(booked) && |booked| == |rows| + 1
            && var r := booked[|rows|];
               && r.token == d.token != "" && r.statusToken == d.statusToken != ""
               && r.status == Pending && r.expiresAt == book.now + TOKEN_TTL
  {
    AcceptedIff(rows, book);
    hide TrimSpace, AllFresh, Insertable;
    var name, contact, need := TrimSpace(book.name), TrimSpace(book.contact), TrimSpace(book.need);
    StepKeepsFresh(rows, Enqueue(name, contact, need, book.draw, book.now));
  }

  lemma FreshRowIsFound(rows: Table, n: nat)
    requires AllFresh(rows) && n < |rows|
    ensures FindToken(rows, rows[n].token) == Some(n) && FindStatusToken(rows, rows[n].statusToken) == Some(n)
  {
    assert rows[n] in rows;
    UniqueRow(rows, rows[n].token, n);
    var m := FindStatusToken(rows, rows[n].statusToken);
  }

  /** A status changes only by a post of the row's own token, while it is pending and in time. */
  lemma StatusChangesByPostOnly(rows: Table, v: Visit, n: nat)
    requires Unique(rows) && n < |rows|
    ensures Unique(Served(rows, v).0) && n < |Served(rows, v).0|
    ensures Served(rows, v).0[n] != rows[n] ==>
              && v.Action? && v.verb == Post && v.token == rows[n].token && Served(rows, v).1 == Done
              && rows[n].status == Pending && v.at <= rows[n].expiresAt
              && Served(rows, v).0[n] == rows[n].(status := v.next)
  {
    hide TrimSpace, Enqueued, Unique;
    match v {
      case Book(name, contact, need, draw, now, _) =>
        StepOnRow(rows, Enqueue(TrimSpace(name), TrimSpace(contact), TrimSpace(need), draw, now), n);
      case Lookup(_) =>
      case Action(_, token, next, at) =>
        StepOnRow(rows, Resolve(token, next, at), n);
    }
  }

  function CountAccepted(rows: Table, visits: seq<Visit>): nat {
    if visits == [] then 0 else
      var front := visits[..|visits| - 1];
      CountAccepted(rows, front) + (if Served(ServedAll(rows, front), visits[|visits| - 1]).1.Accepted? then 1 else 0)
  }

  /** Over any sequence of requests the table grows by its accepted intakes, and a row left alone by posts stays. */
  lemma {:induction false} TableChangesByIntakeOrPost(rows: Table, visits: seq<Visit>)
    requires Unique(rows)
    ensures var rows' := ServedAll(rows, visits);
            && Unique(rows') && |rows'| == |rows| + CountAccepted(rows, visits)
            && forall n :: 0 <= n < |rows| && rows'[n] != rows[n] ==> PostedFor(rows[n].token, visits)
    decreases |visits|
  {
    if visits != [] {
      var front, v := visits[..|visits| - 1], visits[|visits| - 1];
      TableChangesByIntakeOrPost(rows, front);
      var before := ServedAll(rows, front);
      ServedKeepsCount(before, v);
      hide Served, Unique;
      forall n | 0 <= n < |rows| && Served(before, v).0[n] != rows[n]
        ensures PostedFor(rows[n].token, visits)
      {
        StatusChangesByPostOnly(before, v, n);
        if before[n] != rows[n] {
          var k :| 0 <= k < |front| && IsPostOf(front[k], rows[n].token);
          assert IsPostOf(visits[k], rows[n].token);
        } else {
          assert IsPostOf(visits[|visits| - 1], rows[n].token);
        }
      }
    }
  }

  predicate IsPostOf(v: Visit, token: string) { v.Action? && v.verb == Post && v.token == token }

  predicate PostedFor(token: string, visits: seq<Visit>) {
    exists k :: 0 <= k < |visits| && IsPostOf(visits[k], token)
  }

  lemma ServedKeepsCount(rows: Table, v: Visit)
    requires Unique(rows)
    ensures Unique(Served(rows, v).0)
    ensures |Served(rows, v).0| == |rows| + (if Served(rows, v).1.Accepted? then 1 else 0)
  {
    hide TrimSpace, Unique;
    match v {
      case Book(name, contact, need, draw, now, _) =>
        StepKeepsUnique(rows, Enqueue(TrimSpace(name), TrimSpace(contact), TrimSpace(need), draw, now));
      case Lookup(_) =>
      case Action(_, token, next, at) =>
        StepKeepsUnique(rows, Resolve(token, next, at));
    }
  }
}
