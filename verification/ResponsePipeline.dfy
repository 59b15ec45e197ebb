/**
  The two response writers a site response goes through: bufferingResponseWriter
  (internal/siteproxy/fileserver.go:28-66) on top of notFoundHintWriter
  (internal/endpoint/server.go:145-190), on top of the server's own writer.
  */
module ResponsePipeline {
  import opened Strings
  import opened Inject

  type Header = map<string, string>

  const CONTENT_TYPE := "Content-Type"
  const CONTENT_LENGTH := "Content-Length"
  const TEXT_PLAIN := "text/plain; charset=utf-8"
  const HINT := "404 page not found\n\nThis path doesn't exist, but this site publishes agent-readable data at /llms.txt\n"

  predicate IsHtml(h: Header) {
    CONTENT_TYPE in h && "text/html" <= h[CONTENT_TYPE]
  }

  // ---------------------------------------------------------------------------
  // The writers as functions on their state
  // ---------------------------------------------------------------------------

  /** The server's writer: the live header map, the header once sent, the body, and how often a header was sent. */
  datatype Sink = Sink(header: Header, sent: Option<(int, Header)>, body: string, calls: nat) {
    function WriteHeader(status: int): Sink {
      this.(sent := if sent.None? then Some((status, header)) else sent, calls := calls + 1)
    }

    function Write(p: string): Sink {
      var s := if sent.None? then WriteHeader(200) else this;
      s.(body := s.body + p)
    }
  }

  datatype HintState = HintState(sink: Sink, buf: string, status: int, buffering: bool, wroteHeader: bool) {
    function WriteHeader(code: int): HintState {
      var hold := code == 404 && !IsHtml(sink.header);
      HintState(if hold then sink else sink.WriteHeader(code), buf, code, hold, true)
    }

    function Write(p: string): HintState {
      var s := if wroteHeader then this else WriteHeader(200);
      if s.buffering then s.(buf := s.buf + p) else s.(sink := s.sink.Write(p))
    }

    function Flush(): HintState {
      if !buffering then this else
        var h := sink.header[CONTENT_TYPE := TEXT_PLAIN][CONTENT_LENGTH := Itoa(|HINT|)];
        this.(sink := sink.(header := h).WriteHeader(404).Write(HINT))
    }
  }

  datatype SiteState = SiteState(inner: HintState, buf: string, status: int, buffering: bool, wroteHeader: bool) {
    function WriteHeader(code: int): SiteState {
      var hold := IsHtml(inner.sink.header);
      SiteState(if hold then inner else inner.WriteHeader(code), buf, code, hold, true)
    }

    function Write(p: string): SiteState {
      var s := if wroteHeader then this else WriteHeader(200);
      if s.buffering then s.(buf := s.buf + p) else s.(inner := s.inner.Write(p))
    }

    function Flush(links: seq<DiscoveryLink>): SiteState {
      if !buffering then this else
        var body := InjectedLinks(buf, links);
        var h := inner.sink.header[CONTENT_LENGTH := Itoa(|body|)];
        this.(inner := inner.(sink := inner.sink.(header := h)).WriteHeader(status).Write(body))
    }

    function WithHeader(h: Header): SiteState {
      this.(inner := inner.(sink := inner.sink.(header := h)))
    }
  }

  function FreshSink(h: Header): Sink { Sink(h, None, "", 0) }

  function FreshHint(h: Header): HintState { HintState(FreshSink(h), "", 0, false, false) }

  function FreshSite(h: Header): SiteState { SiteState(FreshHint(h), "", 0, false, false) }

  // ---------------------------------------------------------------------------
  // Handlers as the calls they make
  // ---------------------------------------------------------------------------

  datatype Op =
    | SetHeader(name: string, value: string)
    | DelHeader(name: string)
    | WriteHeader(status: int)
    | Write(p: string)

  function Applied(s: SiteState, op: Op): SiteState {
    match op
    case SetHeader(name, value) => s.WithHeader(s.inner.sink.header[name := value])
    case DelHeader(name) => s.WithHeader(s.inner.sink.header - {name})
    case WriteHeader(status) => s.WriteHeader(status)
    case Write(p) => s.Write(p)
  }

  function ApplyAll(s: SiteState, ops: seq<Op>): SiteState {
    if ops == [] then s else Applied(ApplyAll(s, ops[..|ops| - 1]), ops[|ops| - 1])
  }

  /** What the client gets from a site handler making these calls. */
  function Served(h: Header, ops: seq<Op>, links: seq<DiscoveryLink>): Sink {
    ApplyAll(FreshSite(h), ops).Flush(links).inner.Flush().sink
  }

  // ---------------------------------------------------------------------------
  // What the calls amount to
  // ---------------------------------------------------------------------------

  function Edited(h: Header, op: Op): Header {
    match op
    case SetHeader(name, value) => h[name := value]
    case DelHeader(name) => h - {name}
    case _ => h
  }

  function HeaderAfter(h: Header, ops: seq<Op>): Header {
    if ops == [] then h else Edited(HeaderAfter(h, ops[..|ops| - 1]), ops[|ops| - 1])
  }

  /** The status a call sends or implies. */
  function Sends(op: Op): Option<int> {
    match op
    case WriteHeader(status) => Some(status)
    case Write(_) => Some(200)
    case _ => None
  }

  /** The status of the response, once the handler has sent or implied one. */
  function StatusOf(ops: seq<Op>): Option<int> {
    if ops == [] then None else
      var before := StatusOf(ops[..|ops| - 1]);
      if before.Some? then before else Sends(ops[|ops| - 1])
  }

  /** The header as it stood when the status was settled. */
  function HeaderThen(h: Header, ops: seq<Op>): Header {
    if ops == [] then h else
      var front := ops[..|ops| - 1];
      if StatusOf(front).Some? then HeaderThen(h, front) else HeaderAfter(h, ops)
  }

  function Body(ops: seq<Op>): string {
    if ops == [] then "" else
      Body(ops[..|ops| - 1]) + (if ops[|ops| - 1].Write? then ops[|ops| - 1].p else "")
  }

  /** At most one WriteHeader, before any Write; headers may still change, the type has been looked at. */
  predicate OneHeader(ops: seq<Op>) {
    ops == [] ||
    (var front, op := ops[..|ops| - 1], ops[|ops| - 1];
     OneHeader(front) && (StatusOf(front).Some? ==> !op.WriteHeader?))
  }

  /** The hint with its length, in place of whatever the handler wrote. */
  function HintSink(last: Header): Sink {
    var full := last[CONTENT_TYPE := TEXT_PLAIN][CONTENT_LENGTH := Itoa(|HINT|)];
    Sink(full, Some((404, full)), HINT, 1)
  }

  /** The response as one pure function of header, status and body. */
  function Response(h: Header, ops: seq<Op>, links: seq<DiscoveryLink>): Sink {
    var last, settled := HeaderAfter(h, ops), HeaderThen(h, ops);
    match StatusOf(ops)
    case None => FreshSink(last)
    case Some(status) =>
      if IsHtml(settled) then
        var body := InjectedLinks(Body(ops), links);
        var full := last[CONTENT_LENGTH := Itoa(|body|)];
        Sink(full, Some((status, full)), body, 1)
      else if status == 404 then HintSink(last)
      else Sink(last, Some((status, settled)), Body(ops), 1)
  }

  // ---------------------------------------------------------------------------
  // The pipeline computes it
  // ---------------------------------------------------------------------------

  /** The state of the writers after the calls of a handler with one header. */
  function Expected(h: Header, ops: seq<Op>): SiteState {
    var last, settled := HeaderAfter(h, ops), HeaderThen(h, ops);
    match StatusOf(ops)
    case None => FreshSite(last)
    case Some(status) =>
      if IsHtml(settled) then SiteState(FreshHint(last), Body(ops), status, true, true)
      else if status == 404 then
        SiteState(HintState(FreshSink(last), Body(ops), 404, true, true), "", 404, false, true)
      else
        SiteState(HintState(Sink(last, Some((status, settled)), Body(ops), 1), "", status, false, true),
                  "", status, false, true)
  }

  lemma {:induction false} NoBodyYet(ops: seq<Op>)
    requires StatusOf(ops).None?
    ensures Body(ops) == ""
    decreases |ops|
  {
    if ops != [] {
      NoBodyYet(ops[..|ops| - 1]);
    }
  }

  lemma OneMoreCall(h: Header, front: seq<Op>, op: Op)
    requires OneHeader(front) && (StatusOf(front).None? || !op.WriteHeader?)
    ensures OneHeader(front + [op])
    ensures StatusOf(front + [op]) == if StatusOf(front).Some? then StatusOf(front) else Sends(op)
    ensures HeaderAfter(h, front + [op]) == Edited(HeaderAfter(h, front), op)
    ensures HeaderThen(h, front + [op])
            == if StatusOf(front).Some? then HeaderThen(h, front) else Edited(HeaderAfter(h, front), op)
    ensures Body(front + [op]) == Body(front) + (if op.Write? then op.p else "")
  {
    assert (front + [op])[..|front|] == front;
  }

  lemma FirstCallExpected(h: Header, front: seq<Op>, op: Op)
    requires OneHeader(front) && StatusOf(front).None?
    ensures Applied(Expected(h, front), op) == Expected(h, front + [op])
  {
    OneMoreCall(h, front, op);
    NoBodyYet(front);
    hide StatusOf, HeaderAfter, HeaderThen, Body, OneHeader, IsHtml;
    if op.Write? { assert "" + op.p == op.p; }
  }

  lemma LaterCallExpected(h: Header, front: seq<Op>, op: Op)
    requires OneHeader(front) && StatusOf(front).Some? && !op.WriteHeader?
    ensures Applied(Expected(h, front), op) == Expected(h, front + [op])
  {
    OneMoreCall(h, front, op);
    hide StatusOf, HeaderAfter, HeaderThen, Body, OneHeader, IsHtml;
    if !op.Write? { assert Body(front) + "" == Body(front); }
  }

  lemma {:induction false} WritersAsExpected(h: Header, ops: seq<Op>)
    requires OneHeader(ops)
    ensures ApplyAll(FreshSite(h), ops) == Expected(h, ops)
    decreases |ops|
  {
    if ops != [] {
      var front := ops[..|ops| - 1];
      assert ops == front + [ops[|ops| - 1]];
      WritersAsExpected(h, front);
      hide Expected, Applied;
      if StatusOf(front).None? {
        FirstCallExpected(h, front, ops[|ops| - 1]);
      } else {
        LaterCallExpected(h, front, ops[|ops| - 1]);
      }
    }
  }

  /** A 404 that was HTML when it was announced and no longer is when it is flushed. */
  predicate LostPage(h: Header, ops: seq<Op>) {
    StatusOf(ops) == Some(404) && IsHtml(HeaderThen(h, ops)) && !IsHtml(HeaderAfter(h, ops))
  }

  lemma FlushedPage(last: Header, page: string, status: int, links: seq<DiscoveryLink>)
    ensures var body := InjectedLinks(page, links);
            var full := last[CONTENT_LENGTH := Itoa(|body|)];
            SiteState(FreshHint(last), page, status, true, true).Flush(links).inner.Flush().sink
            == if status == 404 && !IsHtml(last) then HintSink(last) else Sink(full, Some((status, full)), body, 1)
  {
    hide InjectedLinks, Itoa;
    var body := InjectedLinks(page, links);
    var length := Itoa(|body|);
    LengthIsNotType(last, length);
    assert "" + body == body && "" + HINT == HINT;
    assert last[CONTENT_LENGTH := length][CONTENT_TYPE := TEXT_PLAIN][CONTENT_LENGTH := Itoa(|HINT|)]
           == last[CONTENT_TYPE := TEXT_PLAIN][CONTENT_LENGTH := Itoa(|HINT|)];
  }

  /** One header, and a body that depends on the calls through Response alone, but for lost pages. */
  lemma PipelineIsPureUnlessLost(h: Header, ops: seq<Op>, links: seq<DiscoveryLink>)
    requires OneHeader(ops)
    ensures Served(h, ops, links) ==
            if LostPage(h, ops) then HintSink(HeaderAfter(h, ops)) else Response(h, ops, links)
  {
    WritersAsExpected(h, ops);
    hide ApplyAll, InjectedLinks, Itoa;
    if StatusOf(ops).Some? && IsHtml(HeaderThen(h, ops)) {
      FlushedPage(HeaderAfter(h, ops), Body(ops), StatusOf(ops).value, links);
      hide IsHtml, SiteState.Flush, HintState.Flush;
    } else {
      assert "" + HINT == HINT;
    }
  }

  /** The exact condition: no page is lost, or the hint is just what it would have been. */
  lemma PipelineIsPureIff(h: Header, ops: seq<Op>, links: seq<DiscoveryLink>)
    requires OneHeader(ops)
    ensures var last := HeaderAfter(h, ops);
            Served(h, ops, links) == Response(h, ops, links) <==>
            || !LostPage(h, ops)
            || (InjectedLinks(Body(ops), links) == HINT && CONTENT_TYPE in last && last[CONTENT_TYPE] == TEXT_PLAIN)
  {
    PipelineIsPureUnlessLost(h, ops, links);
    hide InjectedLinks, Itoa, Served;
    var last := HeaderAfter(h, ops);
    if LostPage(h, ops) {
      var full := last[CONTENT_LENGTH := Itoa(|HINT|)];
      var hint := last[CONTENT_TYPE := TEXT_PLAIN][CONTENT_LENGTH := Itoa(|HINT|)];
      LengthIsNotType(last, "");
      assert hint[CONTENT_TYPE] == TEXT_PLAIN;
      if CONTENT_TYPE in last && last[CONTENT_TYPE] == TEXT_PLAIN {
        assert full == hint;
      } else {
        assert CONTENT_TYPE in full <==> CONTENT_TYPE in last;
        assert full != hint;
      }
    }
  }

  lemma LengthIsNotType(h: Header, n: string)
    ensures IsHtml(h[CONTENT_LENGTH := n]) == IsHtml(h)
  {
    assert CONTENT_LENGTH[8] != CONTENT_TYPE[8];
  }

  /** How a body is cut into writes never shows, whatever else the handler does. */
  lemma ChunkingIsInvisible(s: SiteState, p: string, q: string)
    ensures s.Write(p).Write(q) == s.Write(p + q)
  {
    var t := if s.wroteHeader then s else s.WriteHeader(200);
    assert (t.buf + p) + q == t.buf + (p + q);
    var u := if t.inner.wroteHeader then t.inner else t.inner.WriteHeader(200);
    assert (u.buf + p) + q == u.buf + (p + q);
    var v := if u.sink.sent.None? then u.sink.WriteHeader(200) else u.sink;
    assert (v.body + p) + q == v.body + (p + q);
  }

  lemma {:induction false} ApplyAllConcat(s: SiteState, xs: seq<Op>, ys: seq<Op>)
    ensures ApplyAll(s, xs + ys) == ApplyAll(ApplyAll(s, xs), ys)
    decreases |ys|
  {
    if ys == [] {
      assert xs + ys == xs;
    } else {
      assert (xs + ys)[..|xs + ys| - 1] == xs + ys[..|ys| - 1];
      ApplyAllConcat(s, xs, ys[..|ys| - 1]);
    }
  }

  /** Joining two adjacent writes of any handler at all leaves its response as it was. */
  lemma JoiningWritesIsInvisible(h: Header, before: seq<Op>, p: string, q: string, after: seq<Op>, links: seq<DiscoveryLink>)
    ensures Served(h, before + [Write(p), Write(q)] + after, links) == Served(h, before + [Write(p + q)] + after, links)
  {
    var s := ApplyAll(FreshSite(h), before);
    var two, one := [Write(p), Write(q)], [Write(p + q)];
    ChunkingIsInvisible(s, p, q);
    hide SiteState.Write;
    assert ApplyAll(s, two) == s.Write(p).Write(q) by {
      assert two[..1] == [Write(p)] && [Write(p)][..0] == [];
      assert ApplyAll(s, [Write(p)]) == s.Write(p);
    }
    assert ApplyAll(s, one) == s.Write(p + q) by { assert one[..0] == []; }
    ApplyAllConcat(FreshSite(h), before + two, after);
    ApplyAllConcat(FreshSite(h), before, two);
    ApplyAllConcat(FreshSite(h), before + one, after);
    ApplyAllConcat(FreshSite(h), before, one);
  }

  lemma {:induction false} LaterCallsKeepStatus(h: Header, ops: seq<Op>, more: seq<Op>)
    requires StatusOf(ops).Some?
    ensures StatusOf(ops + more) == StatusOf(ops) && HeaderThen(h, ops + more) == HeaderThen(h, ops)
    decreases |more|
  {
    if more == [] {
      assert ops + more == ops;
    } else {
      assert (ops + more)[..|ops + more| - 1] == ops + more[..|more| - 1];
      LaterCallsKeepStatus(h, ops, more[..|more| - 1]);
    }
  }

  /** Any handler can lose its HTML 404: one change of the type after everything is written does it. */
  lemma LateContentTypeReplacesPage(h: Header, ops: seq<Op>, links: seq<DiscoveryLink>, late: Op)
    requires OneHeader(ops) && StatusOf(ops) == Some(404) && IsHtml(HeaderThen(h, ops))
    requires late == SetHeader(CONTENT_TYPE, "text/plain") || late == DelHeader(CONTENT_TYPE)
    ensures Served(h, ops + [late], links).body == HINT
  {
    var all := ops + [late];
    assert all[..|all| - 1] == ops;
    LaterCallsKeepStatus(h, ops, [late]);
    hide Served, Response, InjectedLinks, HeaderThen;
    assert "text/html"[5] != "text/plain"[5];
    assert !IsHtml(HeaderAfter(h, all));
    PipelineIsPureUnlessLost(h, all, links);
  }

  lemma HtmlKind(kind: string)
    ensures "text/html" <= kind <==> |kind| >= 9 && kind[..9] == "text/html"
  {
    assert |"text/html"| == 9;
  }

  /** The hint is plain text that says where the data is, with its length in decimals. */
  lemma HintIsPlainText(last: Header)
    ensures var sink := HintSink(last);
            && "Content-Type" in sink.header && sink.header["Content-Type"] == "text/plain; charset=utf-8"
            && "Content-Length" in sink.header && Atoi(sink.header["Content-Length"]) == Some(|sink.body|)
            && sink.sent == Some((404, sink.header))
    ensures forall name :: name in last && name != "Content-Type" && name != "Content-Length" ==>
              name in HintSink(last).header && HintSink(last).header[name] == last[name]
  {
    AtoiOfItoa(|HINT|);
    LengthIsNotType(last, "");
    hide Itoa, Atoi;
  }

  /** A page of any HTML type, charset and all, is injected; a page of another type is passed on. */
  lemma PagesAreInjectedByType(h: Header, kind: string, status: int, page: string, links: seq<DiscoveryLink>)
    ensures var sent := Served(h, [SetHeader(CONTENT_TYPE, kind), WriteHeader(status), Write(page)], links);
            && sent.body == (if |kind| >= 9 && kind[..9] == "text/html" then InjectedLinks(page, links)
                             else if status == 404 then HINT
                             else page)
            && sent.sent.Some? && sent.sent.value.0 == status && sent.calls == 1
  {
    var typed := [] + [SetHeader(CONTENT_TYPE, kind)];
    var announced := typed + [WriteHeader(status)];
    OneMoreCall(h, [], SetHeader(CONTENT_TYPE, kind));
    OneMoreCall(h, typed, WriteHeader(status));
    OneMoreCall(h, announced, Write(page));
    HtmlKind(kind);
    assert [SetHeader(CONTENT_TYPE, kind), WriteHeader(status), Write(page)] == announced + [Write(page)];
    assert HeaderAfter(h, []) == h && StatusOf([]) == None && Body([]) == "" && OneHeader([]);
    hide Served, StatusOf, HeaderAfter, HeaderThen, Body, OneHeader, InjectedLinks, Itoa;
    assert "" + "" + "" + page == page;
    PipelineIsPureUnlessLost(h, announced + [Write(page)], links);
  }

  // ---------------------------------------------------------------------------
  // Routes without a site: the hint writer alone
  // ---------------------------------------------------------------------------

  function PlainApplied(s: HintState, op: Op): HintState {
    match op
    case SetHeader(name, value) => s.(sink := s.sink.(header := s.sink.header[name := value]))
    case DelHeader(name) => s.(sink := s.sink.(header := s.sink.header - {name}))
    case WriteHeader(status) => s.WriteHeader(status)
    case Write(p) => s.Write(p)
  }

  function PlainApplyAll(s: HintState, ops: seq<Op>): HintState {
    if ops == [] then s else PlainApplied(PlainApplyAll(s, ops[..|ops| - 1]), ops[|ops| - 1])
  }

  function PlainServed(h: Header, ops: seq<Op>): Sink {
    PlainApplyAll(FreshHint(h), ops).Flush().sink
  }

  function PlainExpected(h: Header, ops: seq<Op>): HintState {
    var last, settled := HeaderAfter(h, ops), HeaderThen(h, ops);
    match StatusOf(ops)
    case None => FreshHint(last)
    case Some(status) =>
      if status == 404 && !IsHtml(settled) then HintState(FreshSink(last), Body(ops), 404, true, true)
      else HintState(Sink(last, Some((status, settled)), Body(ops), 1), "", status, false, true)
  }

  lemma {:induction false} PlainWritersAsExpected(h: Header, ops: seq<Op>)
    requires OneHeader(ops)
    ensures PlainApplyAll(FreshHint(h), ops) == PlainExpected(h, ops)
    decreases |ops|
  {
    if ops != [] {
      var front, op := ops[..|ops| - 1], ops[|ops| - 1];
      PlainWritersAsExpected(h, front);
      if StatusOf(front).None? {
        NoBodyYet(front);
        if op.Write? { assert "" + op.p == op.p; }
      } else {
        assert !op.Write? ==> Body(front) + "" == Body(front);
      }
    }
  }

  /** One header: the hint for a 404 that was not HTML when it was announced, anything else unchanged. */
  lemma PlainPipelineIsPure(h: Header, ops: seq<Op>)
    requires OneHeader(ops)
    ensures var last, settled := HeaderAfter(h, ops), HeaderThen(h, ops);
            PlainServed(h, ops) ==
            match StatusOf(ops)
            case None => FreshSink(last)
            case Some(status) =>
              if status == 404 && !IsHtml(settled) then HintSink(last)
              else Sink(last, Some((status, settled)), Body(ops), 1)
  {
    hide Itoa;
    PlainWritersAsExpected(h, ops);
    assert "" + HINT == HINT;
  }

  // ---------------------------------------------------------------------------
  // The writers as the objects they are
  // ---------------------------------------------------------------------------

  class ResponseSink {
    var header: Header
    var sent: Option<(int, Header)>
    var body: string
    var calls: nat

    function View(): Sink
      reads this
    {
      Sink(header, sent, body, calls)
    }

    constructor (h: Header)
      ensures View() == FreshSink(h)
    {
      header, sent, body, calls := h, None, "", 0;
    }

    method WriteHeader(status: int)
      modifies this
      ensures View() == old(View()).WriteHeader(status)
    {
      if sent.None? {
        sent := Some((status, header));
      }
      calls := calls + 1;
    }

    method Write(p: string)
      modifies this
      ensures View() == old(View()).Write(p)
    {
      if sent.None? {
        WriteHeader(200);
      }
      body := body + p;
    }
  }

  class NotFoundHintWriter {
    const sink: ResponseSink
    var buf: string
    var status: int
    var buffering: bool
    var wroteHeader: bool

    function View(): HintState
      reads this, sink
    {
      HintState(sink.View(), buf, status, buffering, wroteHeader)
    }

    constructor (sink: ResponseSink)
      ensures this.sink == sink
      ensures View() == HintState(sink.View(), "", 0, false, false)
    {
      this.sink := sink;
      buf, status, buffering, wroteHeader := "", 0, false, false;
    }

    method WriteHeader(code: int)
      modifies this, sink
      ensures View() == old(View()).WriteHeader(code)
    {
      status := code;
      wroteHeader := true;
      buffering := code == 404 && !IsHtml(sink.header);
      if !buffering {
        sink.WriteHeader(code);
      }
    }

    method Write(p: string)
      modifies this, sink
      ensures View() == old(View()).Write(p)
    {
      if !wroteHeader {
        WriteHeader(200);
      }
      if buffering {
        buf := buf + p;
      } else {
        sink.Write(p);
      }
    }

    method Flush()
      modifies this, sink
      ensures View() == old(View()).Flush()
    {
      hide Itoa;
      if !buffering {
        return;
      }
      sink.header := sink.header[CONTENT_TYPE := TEXT_PLAIN];
      sink.header := sink.header[CONTENT_LENGTH := Itoa(|HINT|)];
      sink.WriteHeader(404);
      sink.Write(HINT);
    }
  }

  class BufferingResponseWriter {
    const inner: NotFoundHintWriter
    var buf: string
    var status: int
    var buffering: bool
    var wroteHeader: bool

    function View(): SiteState
      reads this, inner, inner.sink
    {
      SiteState(inner.View(), buf, status, buffering, wroteHeader)
    }

    constructor (inner: NotFoundHintWriter)
      ensures this.inner == inner
      ensures View() == SiteState(inner.View(), "", 0, false, false)
    {
      this.inner := inner;
      buf, status, buffering, wroteHeader := "", 0, false, false;
    }

    method WriteHeader(code: int)
      modifies this, inner, inner.sink
      ensures View() == old(View()).WriteHeader(code)
    {
      status := code;
      buffering := IsHtml(inner.sink.header);
      wroteHeader := true;
      if !buffering {
        inner.WriteHeader(code);
      }
    }

    method Write(p: string)
      modifies this, inner, inner.sink
      ensures View() == old(View()).Write(p)
    {
      if !wroteHeader {
        WriteHeader(200);
      }
      if buffering {
        buf := buf + p;
      } else {
        inner.Write(p);
      }
    }

    method Flush(links: seq<DiscoveryLink>)
      modifies this, inner, inner.sink
      ensures View() == old(View()).Flush(links)
    {
      hide Itoa, InjectedLinks;
      if !buffering {
        return;
      }
      var body := InjectLinks(buf, links);
      inner.sink.header := inner.sink.header[CONTENT_LENGTH := Itoa(|body|)];
      inner.WriteHeader(status);
      inner.Write(body);
    }
  }

  /** A site request: FileServer inside withNotFoundHint. */
  method ServeSite(h: Header, ops: seq<Op>, links: seq<DiscoveryLink>) returns (sink: ResponseSink)
    ensures fresh(sink) && sink.View() == Served(h, ops, links)
  {
    hide Itoa, InjectedLinks, IsHtml;
    sink := new ResponseSink(h);
    var nw := new NotFoundHintWriter(sink);
    var bw := new BufferingResponseWriter(nw);
    for n := 0 to |ops|
      invariant fresh(sink) && fresh(nw) && fresh(bw) && bw.inner == nw && nw.sink == sink
      invariant bw.View() == ApplyAll(FreshSite(h), ops[..n])
    {
      assert ops[..n + 1][..n] == ops[..n];
      match ops[n] {
        case SetHeader(name, value) => sink.header := sink.header[name := value];
        case DelHeader(name) => sink.header := sink.header - {name};
        case WriteHeader(status) => bw.WriteHeader(status);
        case Write(p) => bw.Write(p);
      }
    }
    assert ops[..|ops|] == ops;
    bw.Flush(links);
    nw.Flush();
  }
}
