/**
  The booking queue, internal/booking/store.go: a table with unique ids and
  tokens.  Each SQL statement is atomic; here the SELECT and the UPDATE of
  resolve run as one.
  */
module Booking {
  import opened Strings

  datatype Status = Pending | Confirmed | Denied

  /** Nanoseconds. */
  type Instant = int

  const TOKEN_TTL := 48 * 3600 * 1_000_000_000

  datatype Request = Request(
    id: string, name: string, contact: string, need: string, status: Status,
    token: string, statusToken: string, createdAt: Instant, expiresAt: Instant)

  datatype Problem = NoRandomness | Constraint | UnknownToken | AlreadyUsed | Expired | UnknownStatusToken

  datatype Result<+T> = Ok(value: T) | Err(problem: Problem)

  /** The id, token and status token drawn from the random source. */
  datatype Draw = Draw(id: string, token: string, statusToken: string)

  // ---------------------------------------------------------------------------
  // Statements
  // ---------------------------------------------------------------------------

  type Table = seq<Request>

  /** The row with a token, if there is one. */
  function FindToken(rows: Table, token: string): (n: Option<nat>)
    ensures n.Some? ==> n.value < |rows| && rows[n.value].token == token
    ensures n.None? ==> forall r :: r in rows ==> r.token != token
  {
    if rows == [] then None
    else if rows[0].token == token then Some(0)
    else match FindToken(rows[1..], token) case None => None case Some(n) => Some(n + 1)
  }

  function FindStatusToken(rows: Table, statusToken: string): (n: Option<nat>)
    ensures n.Some? ==> n.value < |rows| && rows[n.value].statusToken == statusToken
    ensures n.None? ==> forall r :: r in rows ==> r.statusToken != statusToken
  {
    if rows == [] then None
    else if rows[0].statusToken == statusToken then Some(0)
    else match FindStatusToken(rows[1..], statusToken) case None => None case Some(n) => Some(n + 1)
  }

  /** UPDATE ... SET status = next WHERE token = token */
  function Updated(rows: Table, token: string, next: Status): (rows': Table)
    ensures |rows'| == |rows|
    ensures forall n :: 0 <= n < |rows| ==>
                          rows'[n] == if rows[n].token == token then rows[n].(status := next) else rows[n]
  {
    if rows == [] then []
    else [if rows[0].token == token then rows[0].(status := next) else rows[0]] + Updated(rows[1..], token, next)
  }

  /** Token and id are unique columns. */
  predicate Insertable(rows: Table, d: Draw) {
    forall n :: 0 <= n < |rows| ==> rows[n].id != d.id && rows[n].token != d.token
  }

  function NewRequest(name: string, contact: string, need: string, d: Draw, now: Instant): Request {
    Request(d.id, name, contact, need, Pending, d.token, d.statusToken, now, now + TOKEN_TTL)
  }

  function Enqueued(rows: Table, name: string, contact: string, need: string, draw: Option<Draw>, now: Instant)
    : (Table, Result<Request>)
  {
    match draw
    case None => (rows, Err(NoRandomness))
    case Some(d) =>
      if !Insertable(rows, d) then (rows, Err(Constraint)) else
        var r := NewRequest(name, contact, need, d, now);
        (rows + [r], Ok(r))
  }

  /** The SELECT of resolve and the checks after it; `now` is read last. */
  function Checked(rows: Table, token: string, now: Instant): Result<Request> {
    match FindToken(rows, token)
    case None => Err(UnknownToken)
    case Some(n) =>
      if rows[n].status != Pending then Err(AlreadyUsed)
      else if now > rows[n].expiresAt then Err(Expired)
      else Ok(rows[n])
  }

  function Resolved(rows: Table, token: string, next: Status, now: Instant): (Table, Result<Request>) {
    match Checked(rows, token, now)
    case Err(problem) => (rows, Err(problem))
    case Ok(r) => (Updated(rows, token, next), Ok(r.(status := next)))
  }

  function StatusOf(rows: Table, statusToken: string): Result<Request> {
    if statusToken == "" then Err(UnknownStatusToken) else
      match FindStatusToken(rows, statusToken)
      case None => Err(UnknownStatusToken)
      case Some(n) => Ok(rows[n])
  }

  // ---------------------------------------------------------------------------
  // ORDER BY created_at ASC
  // ---------------------------------------------------------------------------

  ghost predicate ByAge(list: Table) {
    forall m, n :: 0 <= m < n < |list| ==> list[m].createdAt <= list[n].createdAt
  }

  function InsertedByAge(r: Request, list: Table): Table {
    if list == [] || r.createdAt < list[0].createdAt then [r] + list else [list[0]] + InsertedByAge(r, list[1..])
  }

  lemma {:induction false} InsertedByAgeCounts(r: Request, list: Table)
    ensures multiset(InsertedByAge(r, list)) == multiset(list) + multiset{r}
    decreases |list|
  {
    if list != [] && list[0].createdAt <= r.createdAt {
      InsertedByAgeCounts(r, list[1..]);
      assert list == [list[0]] + list[1..];
    }
  }

  lemma {:induction false} InsertedByAgeSorts(r: Request, list: Table)
    requires ByAge(list)
    ensures ByAge(InsertedByAge(r, list))
    decreases |list|
  {
    if list != [] && list[0].createdAt <= r.createdAt {
      InsertedByAgeSorts(r, list[1..]);
      InsertedByAgeCounts(r, list[1..]);
      var rest := InsertedByAge(r, list[1..]);
      forall n | 0 <= n < |rest|
        ensures list[0].createdAt <= rest[n].createdAt
      {
        assert rest[n] in multiset(rest);
        assert rest[n] == r || rest[n] in list[1..];
      }
    }
  }

  class Store {
    var rows: Table

    constructor ()
      ensures rows == []
    {
      rows := [];
    }

    method Enqueue(name: string, contact: string, need: string, draw: Option<Draw>, now: Instant)
      returns (result: Result<Request>)
      modifies this
      ensures (rows, result) == Enqueued(old(rows), name, contact, need, draw, now)
    {
      if draw.None? {
        return Err(NoRandomness);
      }
      var req := NewRequest(name, contact, need, draw.value, now);
      if !Insertable(rows, draw.value) {
        return Err(Constraint);
      }
      rows := rows + [req];
      result := Ok(req);
    }

    method Resolve(token: string, next: Status, now: Instant) returns (result: Result<Request>)
      modifies this
      ensures (rows, result) == Resolved(old(rows), token, next, now)
    {
      var n := FindToken(rows, token);
      if n.None? {
        return Err(UnknownToken);
      }
      var req := rows[n.value];
      if req.status != Pending {
        return Err(AlreadyUsed);
      }
      if now > req.expiresAt {
        return Err(Expired);
      }
      rows := Updated(rows, token, next);
      result := Ok(req.(status := next));
    }

    method Status(statusToken: string) returns (result: Result<Request>)
      ensures result == StatusOf(rows, statusToken)
    {
      if statusToken == "" {
        return Err(UnknownStatusToken);
      }
      var n := FindStatusToken(rows, statusToken);
      result := if n.None? then Err(UnknownStatusToken) else Ok(rows[n.value]);
    }

    /** Every request once, oldest first. */
    method List() returns (list: Table)
      ensures ByAge(list) && multiset(list) == multiset(rows)
    {
      list := [];
      for n := 0 to |rows|
        invariant ByAge(list) && multiset(list) == multiset(rows[..n])
      {
        InsertedByAgeSorts(rows[n], list);
        InsertedByAgeCounts(rows[n], list);
        assert rows[..n + 1] == rows[..n] + [rows[n]];
        list := InsertedByAge(rows[n], list);
      }
      assert rows[..|rows|] == rows;
    }

    method Confirm(token: string, now: Instant) returns (result: Result<Request>)
      modifies this
      ensures (rows, result) == Resolved(old(rows), token, Confirmed, now)
    {
      result := Resolve(token, Confirmed, now);
    }

    method Deny(token: string, now: Instant) returns (result: Result<Request>)
      modifies this
      ensures (rows, result) == Resolved(old(rows), token, Denied, now)
    {
      result := Resolve(token, Denied, now);
    }
  }

  // ---------------------------------------------------------------------------
  // Runs
  // ---------------------------------------------------------------------------

  datatype Op =
    | Enqueue(name: string, contact: string, need: string, draw: Option<Draw>, now: Instant)
    | Resolve(token: string, next: Status, now: Instant)

  function Applied(rows: Table, op: Op): Table {
    match op
    case Enqueue(name, contact, need, draw, now) => Enqueued(rows, name, contact, need, draw, now).0
    case Resolve(token, next, now) => Resolved(rows, token, next, now).0
  }

  function Run(rows: Table, ops: seq<Op>): Table
    decreases |ops|
  {
    if ops == [] then rows else Run(Applied(rows, ops[0]), ops[1..])
  }

  /** Op n of a run is a confirm or deny that goes through. */
  predicate Succeeds(rows: Table, ops: seq<Op>, n: nat)
    requires n < |ops|
  {
    ops[n].Resolve? && Checked(Run(rows, ops[..n]), ops[n].token, ops[n].now).Ok?
  }

  ghost predicate Unique(rows: Table) {
    && (forall m, n :: 0 <= m < n < |rows| ==> rows[m].token != rows[n].token)
    && (forall m, n :: 0 <= m < n < |rows| ==> rows[m].id != rows[n].id)
  }

  /** Confirm and deny are the only resolutions. */
  predicate FinalOnly(ops: seq<Op>) {
    forall n :: 0 <= n < |ops| && ops[n].Resolve? ==> ops[n].next != Pending
  }

  lemma UniqueRow(rows: Table, token: string, n: nat)
    requires Unique(rows) && n < |rows| && rows[n].token == token
    ensures FindToken(rows, token) == Some(n)
  {
    assert rows[n] in rows;
  }

  lemma AppendKeepsUnique(rows: Table, r: Request)
    requires Unique(rows) && forall n :: 0 <= n < |rows| ==> rows[n].id != r.id && rows[n].token != r.token
    ensures Unique(rows + [r])
  {
  }

  ghost predicate SameTokens(a: Table, b: Table) {
    |a| == |b| && forall n :: 0 <= n < |a| ==>
                                a[n].token == b[n].token && a[n].id == b[n].id && a[n].statusToken == b[n].statusToken
  }

  lemma UpdateKeepsTokens(rows: Table, token: string, next: Status)
    ensures SameTokens(rows, Updated(rows, token, next))
  {
  }

  lemma SameTokensUnique(a: Table, b: Table)
    requires SameTokens(a, b) && Unique(a)
    ensures Unique(b)
  {
  }

  lemma StepKeepsUnique(rows: Table, op: Op)
    requires Unique(rows)
    ensures Unique(Applied(rows, op)) && |rows| <= |Applied(rows, op)|
  {
    match op {
      case Enqueue(name, contact, need, draw, now) =>
        if draw.Some? && Insertable(rows, draw.value) {
          AppendKeepsUnique(rows, NewRequest(name, contact, need, draw.value, now));
        }
      case Resolve(token, next, now) =>
        UpdateKeepsTokens(rows, token, next);
        SameTokensUnique(rows, Updated(rows, token, next));
    }
  }

  /** The only change a row sees: from pending to the status of a resolution of its token, in time. */
  lemma StepOnRow(rows: Table, op: Op, n: nat)
    requires Unique(rows) && n < |rows|
    ensures var rows' := Applied(rows, op);
            && Unique(rows') && |rows| <= |rows'|
            && (rows'[n] != rows[n] ==>
                  && op.Resolve? && op.token == rows[n].token && rows[n].status == Pending && op.now <= rows[n].expiresAt
                  && rows'[n] == rows[n].(status := op.next))
  {
    StepKeepsUnique(rows, op);
    if op.Resolve? && op.token == rows[n].token {
      UniqueRow(rows, op.token, n);
    }
    hide Unique, FindToken;
  }

  lemma {:induction false} RunKeepsUnique(rows: Table, ops: seq<Op>)
    requires Unique(rows)
    ensures Unique(Run(rows, ops)) && |rows| <= |Run(rows, ops)|
    decreases |ops|
  {
    if ops != [] {
      StepKeepsUnique(rows, ops[0]);
      RunKeepsUnique(Applied(rows, ops[0]), ops[1..]);
    }
  }

  lemma {:induction false} RunConcat(rows: Table, xs: seq<Op>, ys: seq<Op>)
    ensures Run(rows, xs + ys) == Run(Run(rows, xs), ys)
    decreases |xs|
  {
    if xs == [] {
      assert xs + ys == ys;
    } else {
      assert (xs + ys)[1..] == xs[1..] + ys;
      RunConcat(Applied(rows, xs[0]), xs[1..], ys);
    }
  }

  lemma {:induction false} FinalStaysFinal(rows: Table, ops: seq<Op>, n: nat)
    requires Unique(rows) && n < |rows| && rows[n].status != Pending
    ensures n < |Run(rows, ops)| && Run(rows, ops)[n] == rows[n]
    decreases |ops|
  {
    if ops != [] {
      StepOnRow(rows, ops[0], n);
      FinalStaysFinal(Applied(rows, ops[0]), ops[1..], n);
    }
  }

  lemma RunContinues(rows: Table, ops: seq<Op>, i: nat, j: nat)
    requires i < j <= |ops|
    ensures Run(rows, ops[..j]) == Run(Applied(Run(rows, ops[..i]), ops[i]), ops[i + 1..j])
  {
    hide Applied;
    var rest := ops[i..j];
    assert ops[..j] == ops[..i] + rest && rest[0] == ops[i] && rest[1..] == ops[i + 1..j];
    RunConcat(rows, ops[..i], rest);
  }

  /** A successful resolution settles its row, whatever comes after. */
  lemma SuccessSettles(rows: Table, ops: seq<Op>, i: nat, j: nat) returns (n: nat)
    requires Unique(rows) && FinalOnly(ops) && i < j <= |ops| && Succeeds(rows, ops, i)
    ensures var before, later := Run(rows, ops[..i]), Run(rows, ops[..j]);
            && n < |before| <= |later| && before[n].token == ops[i].token
            && ops[i].now <= before[n].expiresAt
            && later[n] == before[n].(status := ops[i].next)
            && Unique(before) && Unique(later)
  {
    var before := Run(rows, ops[..i]);
    RunKeepsUnique(rows, ops[..i]);
    RunKeepsUnique(rows, ops[..j]);
    n := FindToken(before, ops[i].token).value;
    var after := Applied(before, ops[i]);
    StepOnRow(before, ops[i], n);
    RunContinues(rows, ops, i, j);
    hide Applied, Run, FindToken;
    FinalStaysFinal(after, ops[i + 1..j], n);
    RunKeepsUnique(after, ops[i + 1..j]);
  }

  /** No token is used twice; a success is no later than the expiry instant, and its status stands. */
  lemma TokensResolveOnce(ops: seq<Op>, i: nat, j: nat)
    requires FinalOnly(ops) && i < j < |ops| && Succeeds([], ops, i) && Succeeds([], ops, j)
    ensures ops[i].token != ops[j].token
  {
    if ops[i].token == ops[j].token {
      var n := SuccessSettles([], ops, i, j);
      UniqueRow(Run([], ops[..j]), ops[j].token, n);
    }
  }

  lemma StatusIsFinal(ops: seq<Op>, i: nat)
    requires FinalOnly(ops) && i < |ops| && Succeeds([], ops, i)
    ensures exists n: nat :: n < |Run([], ops)| && Run([], ops)[n].token == ops[i].token
                             && Run([], ops)[n].status == ops[i].next && ops[i].now <= Run([], ops)[n].expiresAt
  {
    assert ops[..|ops|] == ops;
    var n := SuccessSettles([], ops, i, |ops|);
  }

  // ---------------------------------------------------------------------------
  // Who succeeds, told from the operations alone
  // ---------------------------------------------------------------------------

  /** Op k is an Enqueue whose id and token no earlier one that went through has used. */
  ghost predicate GoesThrough(ops: seq<Op>, k: nat)
    requires k < |ops|
    decreases k
  {
    && ops[k].Enqueue? && ops[k].draw.Some?
    && forall j :: 0 <= j < k && GoesThrough(ops, j) ==> Apart(ops[j].draw.value, ops[k].draw.value)
  }

  predicate Apart(c: Draw, d: Draw) { c.id != d.id && c.token != d.token }

  /** Op k gave out the token. */
  ghost predicate Issues(ops: seq<Op>, k: nat, token: string)
    requires k < |ops|
  {
    GoesThrough(ops, k) && ops[k].draw.value.token == token
  }

  /** A success for the token lies after op k and before op n. */
  predicate UsedBetween(ops: seq<Op>, k: nat, n: nat, token: string)
    requires n <= |ops|
  {
    exists i :: k < i < n && Succeeds([], ops, i) && ops[i].token == token
  }

  /** The row op k inserted, with a status. */
  function RowOf(op: Op, status: Status): Request
    requires op.Enqueue? && op.draw.Some?
  {
    var d := op.draw.value;
    Request(d.id, op.name, op.contact, op.need, status, d.token, d.statusToken, op.now, op.now + TOKEN_TTL)
  }

  /** The row is that of op k, and pending exactly if its token is unused. */
  ghost predicate RowTracks(ops: seq<Op>, n: nat, k: nat, r: Request)
    requires k < n <= |ops|
  {
    && GoesThrough(ops, k) && r == RowOf(ops[k], r.status)
    && (r.status == Pending <==> !UsedBetween(ops, k, n, r.token))
  }

  ghost predicate HasOrigin(ops: seq<Op>, n: nat, r: Request)
    requires n <= |ops|
  {
    exists k :: 0 <= k < n && RowTracks(ops, n, k, r)
  }

  ghost predicate HasRow(rows: Table, d: Draw) {
    exists m :: 0 <= m < |rows| && rows[m].id == d.id && rows[m].token == d.token
  }

  /** The table after n operations has one row for each Enqueue that went through, and no other. */
  ghost predicate Tracks(ops: seq<Op>, n: nat, rows: Table)
    requires n <= |ops|
  {
    AllHaveOrigins(ops, n, rows) && AllHaveRows(ops, n, rows)
  }

  ghost predicate AllHaveOrigins(ops: seq<Op>, n: nat, rows: Table)
    requires n <= |ops|
  {
    forall m :: 0 <= m < |rows| ==> HasOrigin(ops, n, rows[m])
  }

  ghost predicate AllHaveRows(ops: seq<Op>, n: nat, rows: Table)
    requires n <= |ops|
  {
    forall k :: 0 <= k < n && GoesThrough(ops, k) ==> HasRow(rows, ops[k].draw.value)
  }

  lemma InsertableIff(ops: seq<Op>, n: nat, rows: Table)
    requires n < |ops| && Tracks(ops, n, rows) && ops[n].Enqueue? && ops[n].draw.Some?
    ensures Insertable(rows, ops[n].draw.value) <==> GoesThrough(ops, n)
  {
    hide UsedBetween;
    var d := ops[n].draw.value;
    if GoesThrough(ops, n) {
      forall m | 0 <= m < |rows|
        ensures rows[m].id != d.id && rows[m].token != d.token
      {
        assert HasOrigin(ops, n, rows[m]);
        var k :| 0 <= k < n && RowTracks(ops, n, k, rows[m]);
        assert Apart(ops[k].draw.value, d);
      }
    }
    if Insertable(rows, d) {
      forall j | 0 <= j < n && GoesThrough(ops, j)
        ensures Apart(ops[j].draw.value, d)
      {
        assert HasRow(rows, ops[j].draw.value);
      }
    }
  }

  lemma UsedOneOn(ops: seq<Op>, k: nat, n: nat, token: string)
    requires k < n < |ops|
    ensures UsedBetween(ops, k, n + 1, token) <==>
            UsedBetween(ops, k, n, token) || (Succeeds([], ops, n) && ops[n].token == token)
  {
    hide Succeeds;
  }

  lemma OneMoreRun(ops: seq<Op>, n: nat)
    requires n < |ops|
    ensures Run([], ops[..n + 1]) == Applied(Run([], ops[..n]), ops[n])
  {
    RunContinues([], ops, n, n + 1);
    assert ops[n + 1..n + 1] == [];
  }

  /** No success has used a token that is only now drawn. */
  lemma NewTokensAreUnused(ops: seq<Op>, n: nat, token: string)
    requires n < |ops|
    ensures !UsedBetween(ops, n, n + 1, token)
  {
  }

  /** One operation on, a row keeps its origin; only a success for its token changes it. */
  lemma OriginStays(ops: seq<Op>, n: nat, r: Request, r': Request)
    requires n < |ops| && HasOrigin(ops, n, r)
    requires Succeeds([], ops, n) ==> ops[n].next != Pending
    requires r' == if Succeeds([], ops, n) && ops[n].token == r.token then r.(status := ops[n].next) else r
    ensures HasOrigin(ops, n + 1, r')
  {
    hide GoesThrough, UsedBetween, Succeeds;
    var k :| 0 <= k < n && RowTracks(ops, n, k, r);
    UsedOneOn(ops, k, n, r.token);
    assert RowTracks(ops, n + 1, k, r');
  }

  lemma NewRowTracks(ops: seq<Op>, n: nat)
    requires n < |ops| && GoesThrough(ops, n)
    ensures HasOrigin(ops, n + 1, RowOf(ops[n], Pending))
  {
    NewTokensAreUnused(ops, n, ops[n].draw.value.token);
    hide UsedBetween;
    assert RowTracks(ops, n + 1, n, RowOf(ops[n], Pending));
  }

  lemma OnlyDrawsGoThrough(ops: seq<Op>, n: nat)
    requires n < |ops|
    ensures GoesThrough(ops, n) ==> ops[n].Enqueue? && ops[n].draw.Some?
  {
  }

  lemma EnqueuedRows(ops: seq<Op>, n: nat, rows: Table)
    requires n < |ops| && Tracks(ops, n, rows) && ops[n].Enqueue?
    ensures Applied(rows, ops[n]) == if GoesThrough(ops, n) then rows + [RowOf(ops[n], Pending)] else rows
  {
    hide GoesThrough, Tracks, Insertable;
    OnlyDrawsGoThrough(ops, n);
    if ops[n].draw.Some? { InsertableIff(ops, n, rows); }
  }

  lemma EnqueueKeepsOrigins(ops: seq<Op>, n: nat, rows: Table, rows': Table)
    requires n < |ops| && AllHaveOrigins(ops, n, rows) && ops[n].Enqueue?
    requires rows' == if GoesThrough(ops, n) then rows + [RowOf(ops[n], Pending)] else rows
    ensures AllHaveOrigins(ops, n + 1, rows')
  {
    if GoesThrough(ops, n) { NewRowTracks(ops, n); }
    hide GoesThrough, HasOrigin;
    forall m | 0 <= m < |rows'|
      ensures HasOrigin(ops, n + 1, rows'[m])
    {
      if m < |rows| { OriginStays(ops, n, rows[m], rows[m]); }
    }
  }

  lemma EnqueueKeepsRows(ops: seq<Op>, n: nat, rows: Table, rows': Table)
    requires n < |ops| && AllHaveRows(ops, n, rows) && ops[n].Enqueue?
    requires rows' == if GoesThrough(ops, n) then rows + [RowOf(ops[n], Pending)] else rows
    ensures AllHaveRows(ops, n + 1, rows')
  {
    hide HasRow;
    forall k | 0 <= k < n + 1 && GoesThrough(ops, k)
      ensures HasRow(rows', ops[k].draw.value)
    {
      if k < n { RowStays(rows, rows', ops[k].draw.value); } else { LastRow(rows', ops[k].draw.value); }
    }
  }

  lemma EnqueueTracks(ops: seq<Op>, n: nat, rows: Table)
    requires n < |ops| && Tracks(ops, n, rows) && ops[n].Enqueue?
    ensures Tracks(ops, n + 1, Applied(rows, ops[n]))
  {
    hide AllHaveRows, AllHaveOrigins, GoesThrough, Applied, RowOf;
    EnqueuedRows(ops, n, rows);
    EnqueueKeepsOrigins(ops, n, rows, Applied(rows, ops[n]));
    EnqueueKeepsRows(ops, n, rows, Applied(rows, ops[n]));
  }

  lemma RowStays(rows: Table, rows': Table, d: Draw)
    requires HasRow(rows, d) && |rows| <= |rows'|
    requires forall m :: 0 <= m < |rows| ==> rows'[m].id == rows[m].id && rows'[m].token == rows[m].token
    ensures HasRow(rows', d)
  {
    var m :| 0 <= m < |rows| && rows[m].id == d.id && rows[m].token == d.token;
    assert rows'[m].id == d.id;
  }

  lemma LastRow(rows: Table, d: Draw)
    requires rows != [] && rows[|rows| - 1].id == d.id && rows[|rows| - 1].token == d.token
    ensures HasRow(rows, d)
  {
  }

  lemma ResolvedRows(rows: Table, op: Op)
    requires op.Resolve?
    ensures var rows' := Applied(rows, op);
            && |rows'| == |rows|
            && forall m :: 0 <= m < |rows| ==>
                             rows'[m] == if Checked(rows, op.token, op.now).Ok? && rows[m].token == op.token
                                         then rows[m].(status := op.next) else rows[m]
  {
    hide Checked;
  }

  lemma ResolveKeepsRows(ops: seq<Op>, n: nat, rows: Table)
    requires n < |ops| && AllHaveRows(ops, n, rows) && ops[n].Resolve?
    ensures AllHaveRows(ops, n + 1, Applied(rows, ops[n]))
  {
    ResolvedRows(rows, ops[n]);
    assert !GoesThrough(ops, n);
    hide GoesThrough, HasRow, Checked, Applied;
    forall k | 0 <= k < n + 1 && GoesThrough(ops, k)
      ensures HasRow(Applied(rows, ops[n]), ops[k].draw.value)
    {
      RowStays(rows, Applied(rows, ops[n]), ops[k].draw.value);
    }
  }

  lemma ResolveKeepsOrigins(ops: seq<Op>, n: nat, rows: Table)
    requires n < |ops| && AllHaveOrigins(ops, n, rows) && ops[n].Resolve? && ops[n].next != Pending
    requires Succeeds([], ops, n) <==> Checked(rows, ops[n].token, ops[n].now).Ok?
    ensures AllHaveOrigins(ops, n + 1, Applied(rows, ops[n]))
  {
    ResolvedRows(rows, ops[n]);
    hide HasOrigin, Succeeds, Checked, Applied;
    var rows' := Applied(rows, ops[n]);
    forall m | 0 <= m < |rows'|
      ensures HasOrigin(ops, n + 1, rows'[m])
    {
      OriginStays(ops, n, rows[m], rows'[m]);
    }
  }

  lemma ResolveTracks(ops: seq<Op>, n: nat, rows: Table)
    requires n < |ops| && Tracks(ops, n, rows) && ops[n].Resolve? && ops[n].next != Pending
    requires Succeeds([], ops, n) <==> Checked(rows, ops[n].token, ops[n].now).Ok?
    ensures Tracks(ops, n + 1, Applied(rows, ops[n]))
  {
    hide AllHaveRows, AllHaveOrigins, Succeeds, Checked, Applied;
    ResolveKeepsRows(ops, n, rows);
    ResolveKeepsOrigins(ops, n, rows);
  }

  lemma OneMoreTracked(ops: seq<Op>, n: nat)
    requires n < |ops| && Tracks(ops, n, Run([], ops[..n])) && (ops[n].Resolve? ==> ops[n].next != Pending)
    ensures Tracks(ops, n + 1, Run([], ops[..n + 1]))
  {
    hide Tracks, Applied, Run, Checked;
    var rows := Run([], ops[..n]);
    OneMoreRun(ops, n);
    if ops[n].Enqueue? {
      EnqueueTracks(ops, n, rows);
    } else {
      ResolveTracks(ops, n, rows);
    }
  }

  lemma {:induction false} RunTracks(ops: seq<Op>, n: nat)
    requires FinalOnly(ops) && n <= |ops|
    ensures Tracks(ops, n, Run([], ops[..n]))
    decreases n
  {
    hide Tracks, Run;
    if n == 0 {
      NothingTracked(ops);
    } else {
      RunTracks(ops, n - 1);
      OneMoreTracked(ops, n - 1);
    }
  }

  lemma NothingTracked(ops: seq<Op>)
    ensures Tracks(ops, 0, Run([], ops[..0]))
  {
  }

  /** An Enqueue goes through exactly if it drew something, and its id and token are unused so far. */
  lemma EnqueueGoesThroughIff(ops: seq<Op>, n: nat)
    requires FinalOnly(ops) && n < |ops| && ops[n].Enqueue?
    ensures var op := ops[n];
            Enqueued(Run([], ops[..n]), op.name, op.contact, op.need, op.draw, op.now).1 ==
            if op.draw.None? then Err(NoRandomness)
            else if GoesThrough(ops, n) then Ok(RowOf(op, Pending))
            else Err(Constraint)
  {
    RunTracks(ops, n);
    hide Tracks, Run, GoesThrough, Insertable;
    if ops[n].draw.Some? { InsertableIff(ops, n, Run([], ops[..n])); }
  }

  lemma TokensAreIssuedOnce(ops: seq<Op>, j: nat, k: nat)
    requires j < |ops| && k < |ops| && GoesThrough(ops, j) && GoesThrough(ops, k)
    ensures ops[j].draw.value.token == ops[k].draw.value.token ==> j == k
  {
    if j < k { assert Apart(ops[j].draw.value, ops[k].draw.value); }
    if k < j { assert Apart(ops[k].draw.value, ops[j].draw.value); }
  }
  lemma IssuedIsFound(ops: seq<Op>, n: nat, rows: Table, k: nat, token: string)
    requires k < n <= |ops| && AllHaveRows(ops, n, rows) && Issues(ops, k, token)
    ensures FindToken(rows, token).Some?
  {
    hide FindToken;
    assert HasRow(rows, ops[k].draw.value);
    var m :| 0 <= m < |rows| && rows[m].token == token;
    assert rows[m] in rows;
  }

  /** The row that answers for a token is that of the Enqueue that gave it out. */
  lemma IssuedRow(ops: seq<Op>, n: nat, rows: Table, k: nat, token: string)
    requires k < n <= |ops| && Tracks(ops, n, rows) && Issues(ops, k, token)
    ensures FindToken(rows, token).Some?
    ensures RowTracks(ops, n, k, rows[FindToken(rows, token).value])
  {
    IssuedIsFound(ops, n, rows, k, token);
    hide FindToken, GoesThrough, UsedBetween, AllHaveRows;
    var r := rows[FindToken(rows, token).value];
    assert HasOrigin(ops, n, r);
    var origin :| 0 <= origin < n && RowTracks(ops, n, origin, r);
    TokensAreIssuedOnce(ops, k, origin);
  }

  lemma KnownTokensAreIssued(ops: seq<Op>, n: nat, rows: Table, token: string) returns (k: nat)
    requires n <= |ops| && Tracks(ops, n, rows) && FindToken(rows, token).Some?
    ensures k < n && Issues(ops, k, token)
  {
    hide GoesThrough, UsedBetween, HasRow;
    var m := FindToken(rows, token).value;
    hide FindToken;
    assert HasOrigin(ops, n, rows[m]);
    k :| 0 <= k < n && RowTracks(ops, n, k, rows[m]);
  }

  lemma OutcomeOfUnissued(ops: seq<Op>, n: nat, rows: Table)
    requires n < |ops| && Tracks(ops, n, rows) && ops[n].Resolve?
    requires forall k :: 0 <= k < n ==> !Issues(ops, k, ops[n].token)
    ensures Resolved(rows, ops[n].token, ops[n].next, ops[n].now).1 == Err(UnknownToken)
  {
    hide Tracks, Issues, FindToken;
    if FindToken(rows, ops[n].token).Some? {
      var k := KnownTokensAreIssued(ops, n, rows, ops[n].token);
    }
  }

  lemma OutcomeOfRow(rows: Table, token: string, next: Status, now: Instant, m: nat)
    requires FindToken(rows, token) == Some(m)
    ensures Resolved(rows, token, next, now).1 ==
            if rows[m].status != Pending then Err(AlreadyUsed)
            else if now > rows[m].expiresAt then Err(Expired)
            else Ok(rows[m].(status := next))
  {
    hide FindToken, Updated;
  }

  lemma OutcomeOfIssued(ops: seq<Op>, n: nat, rows: Table, k: nat)
    requires k < n < |ops| && Tracks(ops, n, rows) && ops[n].Resolve? && Issues(ops, k, ops[n].token)
    ensures Resolved(rows, ops[n].token, ops[n].next, ops[n].now).1 ==
            if UsedBetween(ops, k, n, ops[n].token) then Err(AlreadyUsed)
            else if ops[n].now > ops[k].now + TOKEN_TTL then Err(Expired)
            else Ok(RowOf(ops[k], ops[n].next))
  {
    IssuedRow(ops, n, rows, k, ops[n].token);
    var m := FindToken(rows, ops[n].token).value;
    OutcomeOfRow(rows, ops[n].token, ops[n].next, ops[n].now, m);
    hide Tracks, UsedBetween, Issues, GoesThrough, FindToken, Resolved;
    assert rows[m] == RowOf(ops[k], rows[m].status);
  }

  /** A token is unknown exactly while no Enqueue that went through has given it out. */
  lemma UnknownIffUnissued(ops: seq<Op>, n: nat)
    requires FinalOnly(ops) && n < |ops| && ops[n].Resolve?
    ensures Resolved(Run([], ops[..n]), ops[n].token, ops[n].next, ops[n].now).1 == Err(UnknownToken) <==>
            forall k :: 0 <= k < n ==> !Issues(ops, k, ops[n].token)
  {
    RunTracks(ops, n);
    hide *;
    var rows := Run([], ops[..n]);
    if k :| 0 <= k < n && Issues(ops, k, ops[n].token) {
      OutcomeOfIssued(ops, n, rows, k);
    } else {
      OutcomeOfUnissued(ops, n, rows);
    }
  }

  /**
    What a confirm or deny of a token comes to, told from the operations alone: op k gave the
    token out; if no success for it lies between and it is in time, the resolution succeeds.
    */
  lemma ResolutionIff(ops: seq<Op>, k: nat, n: nat)
    requires FinalOnly(ops) && k < n < |ops| && ops[n].Resolve? && Issues(ops, k, ops[n].token)
    ensures Resolved(Run([], ops[..n]), ops[n].token, ops[n].next, ops[n].now).1 ==
            if UsedBetween(ops, k, n, ops[n].token) then Err(AlreadyUsed)
            else if ops[n].now > ops[k].now + TOKEN_TTL then Err(Expired)
            else Ok(RowOf(ops[k], ops[n].next))
    ensures Succeeds([], ops, n) <==>
            !UsedBetween(ops, k, n, ops[n].token) && ops[n].now <= ops[k].now + TOKEN_TTL
  {
    RunTracks(ops, n);
    OutcomeOfIssued(ops, n, Run([], ops[..n]), k);
    hide Run, UsedBetween, Issues, GoesThrough, FindToken, Updated, FinalOnly;
  }


  // ---------------------------------------------------------------------------
  // Status tokens
  // ---------------------------------------------------------------------------

  /** All tokens of a table, of either kind, differ, and none is empty. */
  ghost predicate AllFresh(rows: Table) {
    && (forall n :: 0 <= n < |rows| ==> rows[n].token != "" && rows[n].statusToken != "")
    && (forall m, n :: 0 <= m < |rows| && 0 <= n < |rows| ==> rows[m].token != rows[n].statusToken)
    && (forall m, n :: 0 <= m < n < |rows| ==> rows[m].statusToken != rows[n].statusToken)
    && Unique(rows)
  }

  /** The tokens drawn for one request are new, not empty and not the same. */
  ghost predicate FreshDraw(rows: Table, d: Draw) {
    && d.token != "" && d.statusToken != "" && d.token != d.statusToken
    && forall r :: r in rows ==> r.token != d.statusToken && r.statusToken != d.token && r.statusToken != d.statusToken
  }

  ghost predicate FreshRun(rows: Table, ops: seq<Op>) {
    forall n :: 0 <= n < |ops| && ops[n].Enqueue? && ops[n].draw.Some? ==>
                  FreshDraw(Run(rows, ops[..n]), ops[n].draw.value)
  }

  lemma AppendKeepsFresh(rows: Table, r: Request)
    requires AllFresh(rows) && Unique(rows + [r]) && FreshDraw(rows, Draw(r.id, r.token, r.statusToken))
    ensures AllFresh(rows + [r])
  {
    hide Unique;
    assert forall n :: 0 <= n < |rows| ==> rows[n] in rows;
  }

  lemma SameTokensFresh(a: Table, b: Table)
    requires SameTokens(a, b) && AllFresh(a)
    ensures AllFresh(b)
  {
    SameTokensUnique(a, b);
    hide Unique;
  }

  lemma StepKeepsFresh(rows: Table, op: Op)
    requires AllFresh(rows) && (op.Enqueue? && op.draw.Some? ==> FreshDraw(rows, op.draw.value))
    ensures AllFresh(Applied(rows, op))
  {
    StepKeepsUnique(rows, op);
    assert Unique(rows);
    hide AllFresh, FreshDraw, FindToken, Unique;
    match op {
      case Enqueue(name, contact, need, draw, now) =>
        if draw.Some? && Insertable(rows, draw.value) {
          AppendKeepsFresh(rows, NewRequest(name, contact, need, draw.value, now));
        }
      case Resolve(token, next, now) =>
        UpdateKeepsTokens(rows, token, next);
        SameTokensFresh(rows, Updated(rows, token, next));
    }
  }

  lemma {:induction false} RunKeepsFresh(rows: Table, ops: seq<Op>)
    requires AllFresh(rows) && FreshRun(rows, ops)
    ensures AllFresh(Run(rows, ops))
    decreases |ops|
  {
    hide AllFresh, Applied, FreshDraw;
    if ops != [] {
      assert ops[..0] == [];
      StepKeepsFresh(rows, ops[0]);
      forall n | 0 <= n < |ops[1..]| && ops[1..][n].Enqueue? && ops[1..][n].draw.Some?
        ensures FreshDraw(Run(Applied(rows, ops[0]), ops[1..][..n]), ops[1..][n].draw.value)
      {
        assert ops[..n + 1][1..] == ops[1..][..n];
        assert ops[n + 1] == ops[1..][n];
      }
      RunKeepsFresh(Applied(rows, ops[0]), ops[1..]);
    }
  }

  /** Status reports what a status token's own row says, and no status token confirms or denies anything. */
  lemma StatusTokensOnlyRead(ops: seq<Op>, n: nat, now: Instant)
    requires FreshRun([], ops) && n < |Run([], ops)|
    ensures var rows := Run([], ops);
            && StatusOf(rows, rows[n].statusToken) == Ok(rows[n])
            && Checked(rows, rows[n].statusToken, now) == Err(UnknownToken)
  {
    RunKeepsFresh([], ops);
    var rows := Run([], ops);
    var m := FindStatusToken(rows, rows[n].statusToken);
    assert rows[n] in rows;
    assert m == Some(n);
  }

  /** The empty string is nobody's status token, whatever the table holds. */
  lemma EmptyStatusTokenIsUnknown(rows: Table)
    ensures StatusOf(rows, "") == Err(UnknownStatusToken)
  {
  }

  /** The requester sees a resolution from the moment it succeeds, for good. */
  lemma StatusReportsResolution(ops: seq<Op>, i: nat)
    requires FinalOnly(ops) && FreshRun([], ops) && i < |ops| && Succeeds([], ops, i)
    ensures exists n: nat :: n < |Run([], ops)| && Run([], ops)[n].token == ops[i].token
                             && StatusOf(Run([], ops), Run([], ops)[n].statusToken).Ok?
                             && StatusOf(Run([], ops), Run([], ops)[n].statusToken).value.status == ops[i].next
  {
    StatusIsFinal(ops, i);
    var n: nat :| n < |Run([], ops)| && Run([], ops)[n].token == ops[i].token
                  && Run([], ops)[n].status == ops[i].next && ops[i].now <= Run([], ops)[n].expiresAt;
    StatusTokensOnlyRead(ops, n, 0);
  }
}
