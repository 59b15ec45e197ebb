/**
  Link injection, internal/siteproxy/inject.go.  Bodies are sequences of bytes,
  written as characters.  The two regular expressions are given by the strings
  they match; FindIndex returns the leftmost match.
  */
module Inject {
  import opened Strings

  datatype DiscoveryLink = DiscoveryLink(rel: string, href: string)

  const DefaultLinks := [
    DiscoveryLink("llms-txt", "/llms.txt"),
    DiscoveryLink("agent-card", "/.well-known/agent.json"),
    DiscoveryLink("mcp-manifest", "/.well-known/mcp.json"),
    DiscoveryLink("mcp-server", "/mcp")
  ]

  // ---------------------------------------------------------------------------
  // The regular expressions
  // ---------------------------------------------------------------------------

  /** (?i)<head[^>]*> , which <header> and <head</body> match too. */
  predicate IsHeadTag(s: string) {
    |s| >= 6 && ToLower(s[..5]) == "<head" && s[|s| - 1] == '>' && '>' !in s[5..|s| - 1]
  }

  /** (?i)</body\s*> */
  predicate IsBodyClose(s: string) {
    |s| >= 7 && ToLower(s[..6]) == "</body" && s[|s| - 1] == '>'
    && forall k :: 6 <= k < |s| - 1 ==> IsRegexSpace(s[k])
  }

  /** \s in a Go regular expression: no vertical tab. */
  predicate IsRegexSpace(c: char) {
    c == ' ' || c == '\t' || c == '\n' || c == '\r' || c == '\U{0C}'
  }

  /** Tab, line feed, form feed, carriage return and the blank. */
  lemma RegexSpacesAre(c: char)
    ensures IsRegexSpace(c) <==> c as int in {9, 10, 12, 13, 32}
  {
  }

  /** A header element is taken for the head, and so is a closing body tag that runs into one. */
  lemma NotOnlyHeadCounts()
    ensures IsHeadTag("<header>") && IsHeadTag("<head</body>") && !IsHeadTag("<thead>")
  {
    assert "<header>"[..5] == "<head" && "<head</body>"[..5] == "<head";
    assert ToLower("<head") == "<head";
    assert "<thead>"[..5][1] == 't' && "<head"[1] == 'h';
  }

  type Loc = (nat, nat)

  predicate MatchesAt(isMatch: string -> bool, body: string, i: nat, j: nat) {
    i <= j <= |body| && isMatch(body[i..j])
  }

  ghost predicate HasMatch(isMatch: string -> bool, body: string) {
    exists i: nat, j: nat :: MatchesAt(isMatch, body, i, j)
  }

  /** What FindIndex promises: a match no other match starts before, or none at all. */
  ghost predicate IsLeftmost(isMatch: string -> bool, body: string, loc: Option<Loc>) {
    match loc
    case None => !HasMatch(isMatch, body)
    case Some((i, j)) =>
      MatchesAt(isMatch, body, i, j) && forall k: nat, l: nat :: k < i ==> !MatchesAt(isMatch, body, k, l)
  }

  function FirstClose(body: string, i: nat): (j: nat)
    requires i <= |body|
    ensures i <= j <= |body| && (forall k :: i <= k < j ==> body[k] != '>') && (j < |body| ==> body[j] == '>')
    decreases |body| - i
  {
    if i == |body| || body[i] == '>' then i else FirstClose(body, i + 1)
  }

  function SkipSpace(body: string, i: nat): (j: nat)
    requires i <= |body|
    ensures i <= j <= |body| && (forall k :: i <= k < j ==> IsRegexSpace(body[k]))
    ensures j < |body| ==> !IsRegexSpace(body[j])
    decreases |body| - i
  {
    if i == |body| || !IsRegexSpace(body[i]) then i else SkipSpace(body, i + 1)
  }

  lemma SliceOfSlice(s: string, i: nat, j: nat, a: nat, b: nat)
    requires i <= j <= |s| && a <= b <= j - i
    ensures s[i..j][a..b] == s[i + a..i + b]
  {
    var t := s[i..j];
    assert forall k :: 0 <= k < b - a ==> t[a..b][k] == t[a + k] == s[i + a..i + b][k];
  }

  lemma HeadPrefix(body: string, i: nat, j: nat)
    requires i + 6 <= j <= |body|
    ensures IsHeadTag(body[i..j]) <==>
            ToLower(body[i..i + 5]) == "<head" && body[j - 1] == '>' && '>' !in body[i + 5..j - 1]
  {
    SliceOfSlice(body, i, j, 0, 5);
    SliceOfSlice(body, i, j, 5, j - i - 1);
  }

  lemma BodyClosePrefix(body: string, i: nat, j: nat)
    requires i + 7 <= j <= |body|
    ensures IsBodyClose(body[i..j]) <==>
            && ToLower(body[i..i + 6]) == "</body" && body[j - 1] == '>'
            && forall k :: i + 6 <= k < j - 1 ==> IsRegexSpace(body[k])
  {
    SliceOfSlice(body, i, j, 0, 6);
    var s := body[i..j];
    assert forall k :: i <= k < j ==> body[k] == s[k - i];
    assert forall k :: 0 <= k < |s| ==> s[k] == body[i + k];
  }

  /** The end of the head tag starting at i, if there is one. */
  function HeadEnd(body: string, i: nat): (end: Option<nat>)
    requires i <= |body|
  {
    if i + 6 <= |body| && ToLower(body[i..i + 5]) == "<head" then
      var j := FirstClose(body, i + 5);
      if j < |body| then Some(j + 1) else None
    else
      None
  }

  lemma HeadEndIsMatch(body: string, i: nat)
    requires i <= |body|
    ensures HeadEnd(body, i).Some? ==> MatchesAt(IsHeadTag, body, i, HeadEnd(body, i).value)
    ensures HeadEnd(body, i).None? ==> forall j: nat :: !MatchesAt(IsHeadTag, body, i, j)
  {
    var end := HeadEnd(body, i);
    if end.Some? {
      HeadPrefix(body, i, end.value);
    }
    forall j: nat | MatchesAt(IsHeadTag, body, i, j)
      ensures end.Some?
    {
      HeadPrefix(body, i, j);
      assert FirstClose(body, i + 5) <= j - 1;
    }
  }

  /** The end of the closing body tag starting at i, if there is one. */
  function BodyCloseEnd(body: string, i: nat): (end: Option<nat>)
    requires i <= |body|
  {
    if i + 7 <= |body| && ToLower(body[i..i + 6]) == "</body" then
      var j := SkipSpace(body, i + 6);
      if j < |body| && body[j] == '>' then Some(j + 1) else None
    else
      None
  }

  lemma BodyCloseEndIsMatch(body: string, i: nat)
    requires i <= |body|
    ensures BodyCloseEnd(body, i).Some? ==> MatchesAt(IsBodyClose, body, i, BodyCloseEnd(body, i).value)
    ensures BodyCloseEnd(body, i).None? ==> forall j: nat :: !MatchesAt(IsBodyClose, body, i, j)
  {
    var end := BodyCloseEnd(body, i);
    if end.Some? {
      BodyClosePrefix(body, i, end.value);
    }
    forall j: nat | MatchesAt(IsBodyClose, body, i, j)
      ensures end.Some?
    {
      BodyClosePrefix(body, i, j);
      var stop := SkipSpace(body, i + 6);
      assert stop == j - 1;
    }
  }

  function FindHeadFrom(body: string, i: nat): (loc: Option<Loc>)
    requires i <= |body|
    requires forall k: nat, l: nat :: k < i ==> !MatchesAt(IsHeadTag, body, k, l)
    ensures IsLeftmost(IsHeadTag, body, loc)
    decreases |body| - i
  {
    HeadEndIsMatch(body, i);
    match HeadEnd(body, i)
    case Some(j) => Some((i, j))
    case None => if i == |body| then None else FindHeadFrom(body, i + 1)
  }

  function FindBodyCloseFrom(body: string, i: nat): (loc: Option<Loc>)
    requires i <= |body|
    requires forall k: nat, l: nat :: k < i ==> !MatchesAt(IsBodyClose, body, k, l)
    ensures IsLeftmost(IsBodyClose, body, loc)
    decreases |body| - i
  {
    BodyCloseEndIsMatch(body, i);
    match BodyCloseEnd(body, i)
    case Some(j) => Some((i, j))
    case None => if i == |body| then None else FindBodyCloseFrom(body, i + 1)
  }

  function FindHead(body: string): (loc: Option<Loc>)
    ensures IsLeftmost(IsHeadTag, body, loc)
  {
    FindHeadFrom(body, 0)
  }

  function FindBodyClose(body: string): (loc: Option<Loc>)
    ensures IsLeftmost(IsBodyClose, body, loc)
  {
    FindBodyCloseFrom(body, 0)
  }

  /** A match of </body\s*> holds one '>', at its end, so leftmost matches are unique. */
  lemma LeftmostBodyCloseIsUnique(body: string, a: Option<Loc>, b: Option<Loc>)
    requires IsLeftmost(IsBodyClose, body, a) && IsLeftmost(IsBodyClose, body, b)
    ensures a == b
  {
    if a.Some? && b.Some? {
      var (i, j) := a.value;
      var (k, l) := b.value;
      assert i == k;
      if j < l { OnlyLastCloses(body, i, l, j - 1); OnlyLastCloses(body, i, j, i); }
      if l < j { OnlyLastCloses(body, i, j, l - 1); OnlyLastCloses(body, i, l, i); }
    }
  }

  lemma OnlyLastCloses(body: string, i: nat, j: nat, k: nat)
    requires MatchesAt(IsBodyClose, body, i, j) && i <= k < j
    ensures body[j - 1] == '>' && body[k] != '"'
    ensures body[k] == '>' ==> k == j - 1
    ensures i + 1 < j && body[i] == '<' && body[i + 1] == '/'
  {
    var s := body[i..j];
    assert body[k] == s[k - i] && body[j - 1] == s[j - 1 - i];
    var t := "</body";
    assert t[0] == '<' && t[1] == '/' && t[2] == 'b' && t[3] == 'o' && t[4] == 'd' && t[5] == 'y';
    assert forall n :: 0 <= n < 6 ==> t[n] == LowerChar(s[..6][n]) && s[..6][n] == s[n];
    assert body[i] == s[0] && body[i + 1] == s[1];
  }

  // ---------------------------------------------------------------------------
  // The injection
  // ---------------------------------------------------------------------------

  function Tag(l: DiscoveryLink): string {
    "<link rel=\"" + l.rel + "\" href=\"" + l.href + "\">"
  }

  function Tags(links: seq<DiscoveryLink>): string {
    if links == [] then "" else Tag(links[0]) + Tags(links[1..])
  }

  function Splice(body: string, at: nat, piece: string): string
    requires at <= |body|
  {
    body[..at] + piece + body[at..]
  }

  function WithHeadLinks(body: string, links: seq<DiscoveryLink>): string {
    match FindHead(body)
    case None => body
    case Some((_, end)) => Splice(body, end, Tags(links))
  }

  /** The href of the first llms-txt link, "" if there is none. */
  function FooterHref(links: seq<DiscoveryLink>): string {
    if links == [] then "" else if links[0].rel == "llms-txt" then links[0].href else FooterHref(links[1..])
  }

  /** Clipped off-screen, not display:none. */
  const FOOTER_STYLE := [
    " style=\"position:absolute;", "width:1px;height:1px;", "margin:-1px;padding:0;", "overflow:hidden;",
    "clip:rect(0,0,0,0);", "white-space:nowrap;border:0\">"
  ]

  function Joined(pieces: seq<string>): string {
    if pieces == [] then "" else pieces[0] + Joined(pieces[1..])
  }

  /** The hidden link, or nothing if it would lead nowhere. */
  function Footer(links: seq<DiscoveryLink>): string {
    if FooterHref(links) == "" then "" else
      "<p" + Joined(FOOTER_STYLE) + "<a href=\"" + FooterHref(links) + "\">Agent/API data</a></p>"
  }

  function WithFooter(body: string, links: seq<DiscoveryLink>): string {
    match FindBodyClose(body)
    case None => body
    case Some((start, _)) => Splice(body, start, Footer(links))
  }

  function InjectedLinks(body: string, links: seq<DiscoveryLink>): string {
    WithFooter(WithHeadLinks(body, links), links)
  }

  method InjectHeadLinks(body: string, links: seq<DiscoveryLink>) returns (out: string)
    ensures out == WithHeadLinks(body, links)
  {
    hide FindHead, Tag;
    var loc := FindHead(body);
    if loc.None? {
      return body;
    }
    var tags := "";
    for n := 0 to |links|
      invariant tags + Tags(links[n..]) == Tags(links)
    {
      assert links[n..][1..] == links[n + 1..];
      tags := tags + Tag(links[n]);
    }
    assert tags + "" == tags;
    out := body[..loc.value.1];
    out := out + tags;
    out := out + body[loc.value.1..];
  }

  method InjectHiddenFooterLink(body: string, links: seq<DiscoveryLink>) returns (out: string)
    ensures out == WithFooter(body, links)
  {
    hide FindBodyClose;
    var loc := FindBodyClose(body);
    if loc.None? {
      return body;
    }
    var href := "";
    for n := 0 to |links|
      invariant href == "" && FooterHref(links) == FooterHref(links[n..])
    {
      assert links[n..][1..] == links[n + 1..];
      if links[n].rel == "llms-txt" {
        href := links[n].href;
        break;
      }
    }
    assert href == FooterHref(links);
    if href == "" {
      assert body == body[..loc.value.0] + "" + body[loc.value.0..];
      return body;
    }
    out := body[..loc.value.0];
    out := out + Footer(links);
    out := out + body[loc.value.0..];
  }

  method InjectLinks(body: string, links: seq<DiscoveryLink>) returns (out: string)
    ensures out == InjectedLinks(body, links)
  {
    out := InjectHeadLinks(body, links);
    out := InjectHiddenFooterLink(out, links);
  }

  // ---------------------------------------------------------------------------
  // Which links are harmless
  // ---------------------------------------------------------------------------

  ghost predicate Clean(links: seq<DiscoveryLink>) {
    forall l :: l in links ==> !HasMatch(IsBodyClose, l.rel) && !HasMatch(IsBodyClose, l.href)
  }

  lemma MatchInPart(body: string, part: string, at: nat, i: nat, j: nat)
    requires at + |part| <= |body| && body[at..at + |part|] == part
    requires at <= i <= j <= at + |part|
    ensures MatchesAt(IsBodyClose, body, i, j) <==> MatchesAt(IsBodyClose, part, i - at, j - at)
  {
    assert forall k :: at <= k < at + |part| ==> body[k] == body[at..at + |part|][k - at];
    assert j <= |body| ==> body[i..j] == part[i - at..j - at];
  }

  /** No match spans a quote. */
  lemma QuotesSeparate(x: string, y: string)
    ensures HasMatch(IsBodyClose, x + ['"'] + y) <==> HasMatch(IsBodyClose, x) || HasMatch(IsBodyClose, y)
  {
    hide IsBodyClose;
    var body := x + ['"'] + y;
    if HasMatch(IsBodyClose, body) {
      var i: nat, j: nat :| MatchesAt(IsBodyClose, body, i, j);
      if i <= |x| < j {
        OnlyLastCloses(body, i, j, |x|);
      } else if j <= |x| {
        MatchInPart(body, x, 0, i, j);
      } else {
        MatchInPart(body, y, |x| + 1, i, j);
      }
    }
    if HasMatch(IsBodyClose, x) {
      var i: nat, j: nat :| MatchesAt(IsBodyClose, x, i, j);
      MatchInPart(body, x, 0, i, j);
    }
    if HasMatch(IsBodyClose, y) {
      var i: nat, j: nat :| MatchesAt(IsBodyClose, y, i, j);
      MatchInPart(body, y, |x| + 1, |x| + 1 + i, |x| + 1 + j);
    }
  }

  lemma NoMatchWithout(s: string)
    requires '/' !in s || '<' !in s
    ensures !HasMatch(IsBodyClose, s)
  {
    hide IsBodyClose;
    if HasMatch(IsBodyClose, s) {
      var i: nat, j: nat :| MatchesAt(IsBodyClose, s, i, j);
      MatchIsNotEmpty(s, i, j);
      OnlyLastCloses(s, i, j, i);
    }
  }

  lemma CloseThenRest(rest: string)
    ensures HasMatch(IsBodyClose, ">" + rest) <==> HasMatch(IsBodyClose, rest)
  {
    hide IsBodyClose;
    if HasMatch(IsBodyClose, ">" + rest) {
      var i: nat, j: nat :| MatchesAt(IsBodyClose, ">" + rest, i, j);
      MatchIsNotEmpty(">" + rest, i, j);
      OnlyLastCloses(">" + rest, i, j, i);
      MatchInPart(">" + rest, rest, 1, i, j);
    }
    if HasMatch(IsBodyClose, rest) {
      var i: nat, j: nat :| MatchesAt(IsBodyClose, rest, i, j);
      MatchInPart(">" + rest, rest, 1, i + 1, j + 1);
    }
  }

  lemma TagMatches(l: DiscoveryLink, rest: string)
    ensures HasMatch(IsBodyClose, Tag(l) + rest) <==>
            HasMatch(IsBodyClose, l.rel) || HasMatch(IsBodyClose, l.href) || HasMatch(IsBodyClose, rest)
  {
    hide HasMatch, IsBodyClose;
    var afterHref := ">" + rest;
    var afterRel := " href=" + ['"'] + (l.href + ['"'] + afterHref);
    assert Tag(l) + rest == "<link rel=" + ['"'] + (l.rel + ['"'] + afterRel);
    QuotesSeparate("<link rel=", l.rel + ['"'] + afterRel);
    QuotesSeparate(l.rel, afterRel);
    QuotesSeparate(" href=", l.href + ['"'] + afterHref);
    QuotesSeparate(l.href, afterHref);
    NoMatchWithout("<link rel=");
    NoMatchWithout(" href=");
    CloseThenRest(rest);
  }

  /** The tags hold a match exactly when some link's own text does. */
  lemma {:induction false} TagsMatchIffLinksDo(links: seq<DiscoveryLink>)
    ensures HasMatch(IsBodyClose, Tags(links)) <==> !Clean(links)
    decreases |links|
  {
    hide HasMatch, IsBodyClose, Tag;
    if links == [] {
      NoMatchWithout("");
    } else {
      TagMatches(links[0], Tags(links[1..]));
      TagsMatchIffLinksDo(links[1..]);
      assert links == [links[0]] + links[1..];
    }
  }

  lemma {:induction false} TagsEndClosed(links: seq<DiscoveryLink>)
    requires links != []
    ensures Tags(links) != "" && Tags(links)[|Tags(links)| - 1] == '>'
    decreases |links|
  {
    if |links| > 1 {
      TagsEndClosed(links[1..]);
    }
  }

  lemma PlainLinksAreClean(links: seq<DiscoveryLink>)
    requires forall l :: l in links ==> '<' !in l.rel
    requires forall l :: l in links ==> '<' !in l.href
    ensures Clean(links)
  {
    forall l | l in links
      ensures !HasMatch(IsBodyClose, l.rel) && !HasMatch(IsBodyClose, l.href)
    {
      NoMatchWithout(l.rel);
      NoMatchWithout(l.href);
    }
  }

  lemma PlainDefaultRels()
    ensures forall l :: l in DefaultLinks ==> '<' !in l.rel
  {
  }

  lemma PlainDefaultHrefs()
    ensures forall l :: l in DefaultLinks ==> '<' !in l.href
  {
  }

  lemma DefaultLinksAreClean()
    ensures Clean(DefaultLinks)
  {
    PlainDefaultRels();
    PlainDefaultHrefs();
    hide *;
    PlainLinksAreClean(DefaultLinks);
  }

  // ---------------------------------------------------------------------------
  // Inserting after a '>' moves matches, and makes or breaks none
  // ---------------------------------------------------------------------------

  /** Where an anchor of the original body is once n bytes went in at position `at`. */
  function Moved(loc: Option<Loc>, at: nat, n: nat): Option<Loc> {
    match loc
    case None => None
    case Some((i, j)) => if j <= at then loc else Some((i + n, j + n))
  }

  lemma SliceBefore(body: string, at: nat, piece: string, i: nat, j: nat)
    requires i <= j <= at <= |body|
    ensures Splice(body, at, piece)[i..j] == body[i..j]
  {
  }

  lemma SliceInside(body: string, at: nat, piece: string, i: nat, j: nat)
    requires at <= |body| && i <= j <= |piece|
    ensures Splice(body, at, piece)[at + i..at + j] == piece[i..j]
  {
    assert Splice(body, at, piece)[at..at + |piece|] == piece;
    assert Splice(body, at, piece)[at..at + |piece|][i..j] == Splice(body, at, piece)[at + i..at + j];
  }

  lemma SliceBehind(body: string, at: nat, piece: string, i: nat, j: nat)
    requires at <= i <= j <= |body|
    ensures Splice(body, at, piece)[i + |piece|..j + |piece|] == body[i..j]
  {
    var out := Splice(body, at, piece);
    assert out[at + |piece|..] == body[at..];
    assert out[at + |piece|..][i - at..j - at] == out[i + |piece|..j + |piece|];
    assert body[at..][i - at..j - at] == body[i..j];
  }

  lemma SpliceLength(body: string, at: nat, piece: string)
    requires at <= |body|
    ensures |Splice(body, at, piece)| == |body| + |piece|
  {
  }

  lemma MatchIsNotEmpty(body: string, i: nat, j: nat)
    requires MatchesAt(IsBodyClose, body, i, j)
    ensures i < j
  {
  }

  lemma BodyMatchesMove(body: string, at: nat, piece: string, i: nat, j: nat)
    requires 0 < at <= |body| && body[at - 1] == '>'
    requires MatchesAt(IsBodyClose, body, i, j)
    ensures i < j
    ensures if j <= at then MatchesAt(IsBodyClose, Splice(body, at, piece), i, j)
            else at <= i && MatchesAt(IsBodyClose, Splice(body, at, piece), i + |piece|, j + |piece|)
  {
    hide IsBodyClose;
    MatchIsNotEmpty(body, i, j);
    if j <= at {
      SliceBefore(body, at, piece, i, j);
    } else {
      if i < at { OnlyLastCloses(body, i, j, at - 1); }
      SliceBehind(body, at, piece, i, j);
    }
  }

  lemma SplicedMatchesComeFrom(body: string, at: nat, piece: string, i: nat, j: nat)
    requires 0 < at <= |body| && body[at - 1] == '>'
    requires piece != "" ==> piece[|piece| - 1] == '>'
    requires MatchesAt(IsBodyClose, Splice(body, at, piece), i, j)
    ensures || (j <= at && MatchesAt(IsBodyClose, body, i, j))
            || (at <= i && j <= at + |piece| && MatchesAt(IsBodyClose, piece, i - at, j - at))
            || (at + |piece| <= i && MatchesAt(IsBodyClose, body, i - |piece|, j - |piece|))
  {
    hide IsBodyClose;
    var out, end := Splice(body, at, piece), at + |piece|;
    assert out[at - 1] == '>' && (piece != "" ==> out[end - 1] == piece[|piece| - 1]);
    SpliceLength(body, at, piece);
    hide Splice;
    if i < at < j { OnlyLastCloses(out, i, j, at - 1); }
    if i < end < j && piece != "" { OnlyLastCloses(out, i, j, end - 1); }
    if j <= at {
      SliceBefore(body, at, piece, i, j);
    } else if j <= end {
      SliceInside(body, at, piece, i - at, j - at);
    } else {
      SliceBehind(body, at, piece, i - |piece|, j - |piece|);
    }
  }

  lemma CleanPieceMovesAnchor(body: string, at: nat, piece: string)
    requires 0 < at <= |body| && body[at - 1] == '>'
    requires (piece != "" ==> piece[|piece| - 1] == '>') && !HasMatch(IsBodyClose, piece)
    ensures FindBodyClose(Splice(body, at, piece)) == Moved(FindBodyClose(body), at, |piece|)
  {
    hide IsBodyClose, Splice, FindBodyClose;
    var out, loc := Splice(body, at, piece), FindBodyClose(body);
    var moved := Moved(loc, at, |piece|);
    if loc.Some? {
      BodyMatchesMove(body, at, piece, loc.value.0, loc.value.1);
    }
    forall i: nat, j: nat | MatchesAt(IsBodyClose, out, i, j)
      ensures moved.Some? && moved.value.0 <= i
    {
      SplicedMatchesComeFrom(body, at, piece, i, j);
      if j <= at && MatchesAt(IsBodyClose, body, i, j) {
        BodyMatchesMove(body, at, piece, i, j);
      }
    }
    LeftmostBodyCloseIsUnique(out, FindBodyClose(out), moved);
  }

  lemma HeadEndsClosed(body: string)
    requires FindHead(body).Some?
    ensures var (i, end) := FindHead(body).value; 0 < end <= |body| && body[end - 1] == '>'
  {
    var (i, end) := FindHead(body).value;
    assert body[i..end][end - i - 1] == body[end - 1];
  }

  lemma TagsKeepOrEndClosed(links: seq<DiscoveryLink>)
    ensures Tags(links) != "" ==> Tags(links)[|Tags(links)| - 1] == '>'
  {
    if links != [] { TagsEndClosed(links); }
  }

  /** A match inside the piece takes over, unless the body's own comes before it. */
  lemma DirtyPieceTakesOver(body: string, at: nat, piece: string)
    requires 0 < at <= |body| && body[at - 1] == '>'
    requires piece != "" && piece[|piece| - 1] == '>' && HasMatch(IsBodyClose, piece)
    ensures var loc := FindBodyClose(body);
            FindBodyClose(Splice(body, at, piece)) == Moved(loc, at, |piece|)
            <==> loc.Some? && loc.value.1 <= at
  {
    hide IsBodyClose, Splice, FindBodyClose;
    var out, loc := Splice(body, at, piece), FindBodyClose(body);
    var i: nat, j: nat :| MatchesAt(IsBodyClose, piece, i, j);
    MatchIsNotEmpty(piece, i, j);
    SliceInside(body, at, piece, i, j);
    SpliceLength(body, at, piece);
    assert MatchesAt(IsBodyClose, out, at + i, at + j);
    if loc.Some? {
      BodyMatchesMove(body, at, piece, loc.value.0, loc.value.1);
      if loc.value.1 <= at {
        forall k: nat, l: nat | MatchesAt(IsBodyClose, out, k, l)
          ensures loc.value.0 <= k
        {
          SplicedMatchesComeFrom(body, at, piece, k, l);
        }
        LeftmostBodyCloseIsUnique(out, FindBodyClose(out), loc);
      }
    }
  }

  /** The head links leave the footer its anchor exactly when they are clean or go in after it. */
  lemma AnchorKeptIff(body: string, links: seq<DiscoveryLink>)
    requires FindHead(body).Some?
    ensures var end := FindHead(body).value.1;
            FindBodyClose(WithHeadLinks(body, links)) == Moved(FindBodyClose(body), end, |Tags(links)|)
            <==> Clean(links) || (FindBodyClose(body).Some? && FindBodyClose(body).value.1 <= end)
  {
    hide FindHead, FindBodyClose, HasMatch, IsBodyClose, Tags, Moved, Clean;
    HeadEndsClosed(body);
    TagsKeepOrEndClosed(links);
    TagsMatchIffLinksDo(links);
    if Clean(links) {
      CleanPieceMovesAnchor(body, FindHead(body).value.1, Tags(links));
    } else {
      NoMatchWithout("");
      DirtyPieceTakesOver(body, FindHead(body).value.1, Tags(links));
    }
  }

  /** The original with the two pieces spliced in, wherever the anchors lie to each other. */
  function Spliced(body: string, links: seq<DiscoveryLink>): string {
    match (FindHead(body), FindBodyClose(body))
    case (None, None) => body
    case (Some(head), None) => Splice(body, head.1, Tags(links))
    case (None, Some(close)) => Splice(body, close.0, Footer(links))
    case (Some(head), Some(close)) =>
      if close.0 < head.1 then
        body[..close.0] + Footer(links) + body[close.0..head.1] + Tags(links) + body[head.1..]
      else
        body[..head.1] + Tags(links) + body[head.1..close.0] + Footer(links) + body[close.0..]
  }

  lemma SplicesTwice(body: string, at: nat, piece: string, close: Loc, footer: string)
    requires 0 < at <= |body| && body[at - 1] == '>' && MatchesAt(IsBodyClose, body, close.0, close.1)
    ensures close.1 <= at <==> close.0 < at
    ensures close.0 < at ==>
              Splice(Splice(body, at, piece), close.0, footer)
              == body[..close.0] + footer + body[close.0..at] + piece + body[at..]
    ensures at <= close.0 ==>
              Splice(Splice(body, at, piece), close.0 + |piece|, footer)
              == body[..at] + piece + body[at..close.0] + footer + body[close.0..]
  {
    if close.0 < at < close.1 { OnlyLastCloses(body, close.0, close.1, at - 1); }
    var out := Splice(body, at, piece);
    if close.0 < at {
      assert out[..close.0] == body[..close.0];
      assert out[close.0..] == body[close.0..at] + piece + body[at..];
    } else {
      assert out[..close.0 + |piece|] == body[..at] + piece + body[at..close.0];
      assert out[close.0 + |piece|..] == body[close.0..];
    }
  }

  lemma InjectionIsTwoSplices(body: string, links: seq<DiscoveryLink>)
    requires Clean(links)
    ensures InjectedLinks(body, links) == Spliced(body, links)
  {
    hide FindHead, FindBodyClose, IsBodyClose, Tags, Footer, Clean, Splice;
    var head, close := FindHead(body), FindBodyClose(body);
    if head.Some? {
      AnchorKeptIff(body, links);
      HeadEndsClosed(body);
      if close.Some? {
        SplicesTwice(body, head.value.1, Tags(links), close.value, Footer(links));
      }
    }
  }

  // ---------------------------------------------------------------------------
  // What the inserted pieces say to a reader of HTML
  // ---------------------------------------------------------------------------

  const REL_OPENS := "<link rel=\""
  const HREF_OPENS := " href=\""

  /** The text up to the next double quote, and what follows that. */
  function Quoted(s: string): (r: Option<(string, string)>)
    ensures r.Some? ==> '"' !in r.value.0 && s == r.value.0 + ['"'] + r.value.1
  {
    var i := IndexOf(s, '"');
    if i < 0 then None else
      assert s == s[..i] + ['"'] + s[i + 1..];
      Some((s[..i], s[i + 1..]))
  }

  /** A link element with its two quoted attributes, and what follows it. */
  function ReadLink(s: string): (r: Option<(DiscoveryLink, string)>)
    ensures r.Some? ==> |r.value.1| < |s| && '"' !in r.value.0.rel && '"' !in r.value.0.href
  {
    if !(REL_OPENS <= s) then None else
      match Quoted(s[|REL_OPENS|..])
      case None => None
      case Some((rel, rest)) =>
        if !(HREF_OPENS <= rest) then None else
          match Quoted(rest[|HREF_OPENS|..])
          case None => None
          case Some((href, end)) => if ">" <= end then Some((DiscoveryLink(rel, href), end[1..])) else None
  }

  /** The links of a text made of nothing but link elements. */
  function ReadLinks(s: string): Option<seq<DiscoveryLink>>
    decreases |s|
  {
    if s == "" then Some([]) else
      match ReadLink(s)
      case None => None
      case Some((link, rest)) =>
        match ReadLinks(rest)
        case None => None
        case Some(links) => Some([link] + links)
  }

  predicate Quotable(l: DiscoveryLink) { '"' !in l.rel && '"' !in l.href }

  lemma QuotedReads(text: string, rest: string)
    requires '"' !in text
    ensures Quoted(text + ['"'] + rest) == Some((text, rest))
  {
    var s := text + ['"'] + rest;
    assert s == text + (['"'] + rest);
    FirstAt(text, '"', ['"'] + rest);
    assert s[..|text|] == text && s[|text| + 1..] == rest;
  }

  lemma PrefixDropped(prefix: string, rest: string)
    ensures prefix <= prefix + rest && (prefix + rest)[|prefix|..] == rest
  {
  }

  lemma TagParts(l: DiscoveryLink, rest: string)
    ensures Tag(l) + rest
            == REL_OPENS + (l.rel + ['"'] + (HREF_OPENS + (l.href + ['"'] + (">" + rest))))
  {
  }

  lemma TagReads(l: DiscoveryLink, rest: string)
    requires Quotable(l)
    ensures ReadLink(Tag(l) + rest) == Some((l, rest))
  {
    TagParts(l, rest);
    hide Tag, Quoted, REL_OPENS, HREF_OPENS;
    var afterHref := ">" + rest;
    var fromHref := l.href + ['"'] + afterHref;
    var fromRel := l.rel + ['"'] + (HREF_OPENS + fromHref);
    PrefixDropped(REL_OPENS, fromRel);
    QuotedReads(l.rel, HREF_OPENS + fromHref);
    PrefixDropped(HREF_OPENS, fromHref);
    QuotedReads(l.href, afterHref);
    PrefixDropped(">", rest);
  }

  lemma {:induction false} ReadLinksAreQuotable(s: string)
    requires ReadLinks(s).Some?
    ensures forall l :: l in ReadLinks(s).value ==> Quotable(l)
    decreases |s|
  {
    hide ReadLink;
    if s != "" {
      ReadLinksAreQuotable(ReadLink(s).value.1);
    }
  }

  lemma {:induction false} QuotableTagsRead(links: seq<DiscoveryLink>)
    requires forall l :: l in links ==> Quotable(l)
    ensures ReadLinks(Tags(links)) == Some(links)
    decreases |links|
  {
    hide ReadLink, Tag, Quotable;
    if links != [] {
      assert links == [links[0]] + links[1..];
      TagReads(links[0], Tags(links[1..]));
      QuotableTagsRead(links[1..]);
      TagsEndClosed(links);
    }
  }

  /** The inserted tags read back as the links, all of them in order, exactly if no link holds a quote. */
  lemma {:induction false} TagsReadBackIff(links: seq<DiscoveryLink>)
    ensures ReadLinks(Tags(links)) == Some(links) <==> forall l :: l in links ==> Quotable(l)
  {
    hide ReadLinks, Tags, Quotable;
    if ReadLinks(Tags(links)) == Some(links) {
      ReadLinksAreQuotable(Tags(links));
    }
    if forall l :: l in links ==> Quotable(l) {
      QuotableTagsRead(links);
    }
  }

  lemma SpliceParts(body: string, at: nat, piece: string)
    requires at <= |body|
    ensures var out := Splice(body, at, piece);
            && |out| == |body| + |piece| && out[..at] == body[..at] && out[at..at + |piece|] == piece
            && out[at + |piece|..] == body[at..]
  {
  }

  /** So whatever page they are put in, the stretch behind the head match is read as the links. */
  lemma InjectedHeadReadsBack(body: string, links: seq<DiscoveryLink>)
    requires FindHead(body).Some? && forall l :: l in links ==> Quotable(l)
    ensures var out, at := WithHeadLinks(body, links), FindHead(body).value.1;
            && |body| <= |out| && out[..at] == body[..at] && out[at + |out| - |body|..] == body[at..]
            && ReadLinks(out[at..at + |out| - |body|]) == Some(links)
  {
    var out, at := WithHeadLinks(body, links), FindHead(body).value.1;
    TagsReadBackIff(links);
    hide FindHead, Tags, ReadLinks, Splice;
    SpliceParts(body, at, Tags(links));
  }

  const ANCHOR_OPENS := "<a href=\""

  /** The targets of all anchors of a text. */
  function Anchors(s: string): seq<string>
    decreases |s|
  {
    if s == "" then []
    else if ANCHOR_OPENS <= s then
      match Quoted(s[|ANCHOR_OPENS|..])
      case None => []
      case Some((href, rest)) => [href] + Anchors(rest)
    else Anchors(s[1..])
  }

  lemma {:induction false} NoAnchorBefore(text: string, rest: string)
    requires '<' !in text
    ensures Anchors(text + rest) == Anchors(rest)
    decreases |text|
  {
    if text == "" {
      assert text + rest == rest;
    } else {
      assert (text + rest)[0] == text[0] && (text + rest)[1..] == text[1..] + rest;
      assert text[0] in text;
      assert ANCHOR_OPENS[0] == '<';
      NoAnchorBefore(text[1..], rest);
    }
  }

  lemma OtherElement(c: char, rest: string)
    requires c != 'a'
    ensures Anchors(['<', c] + rest) == Anchors([c] + rest)
  {
    var s := ['<', c] + rest;
    assert ANCHOR_OPENS[1] == 'a' && s[1] == c && s[1..] == [c] + rest;
  }

  lemma AnchorReads(href: string, rest: string)
    requires '"' !in href
    ensures Anchors(ANCHOR_OPENS + href + ['"'] + rest) == [href] + Anchors(rest)
  {
    hide Quoted, ANCHOR_OPENS;
    var fromHref := href + ['"'] + rest;
    assert ANCHOR_OPENS + href + ['"'] + rest == ANCHOR_OPENS + fromHref;
    PrefixDropped(ANCHOR_OPENS, fromHref);
    QuotedReads(href, rest);
  }

  lemma StyleOpensNothing()
    ensures forall piece :: piece in FOOTER_STYLE ==> '<' !in piece
  {
  }

  lemma {:induction false} NoAnchorInPieces(pieces: seq<string>, rest: string)
    requires forall piece :: piece in pieces ==> '<' !in piece
    ensures Anchors(Joined(pieces) + rest) == Anchors(rest)
    decreases |pieces|
  {
    hide Anchors;
    if pieces == [] {
      assert Joined(pieces) + rest == rest;
    } else {
      assert Joined(pieces) + rest == pieces[0] + (Joined(pieces[1..]) + rest);
      NoAnchorBefore(pieces[0], Joined(pieces[1..]) + rest);
      NoAnchorInPieces(pieces[1..], rest);
    }
  }

  lemma ClosingTag(c: char, rest: string)
    requires c != '<'
    ensures Anchors("</" + [c] + ">" + rest) == Anchors(rest)
  {
    assert "</" + [c] + ">" + rest == ['<', '/'] + ([c, '>'] + rest);
    OtherElement('/', [c, '>'] + rest);
    hide Anchors;
    assert ['/'] + ([c, '>'] + rest) == ['/', c, '>'] + rest;
    NoAnchorBefore(['/', c, '>'], rest);
  }

  lemma NoAnchors()
    ensures Anchors("") == []
  {
  }

  /** An anchor with its text and both closing tags. */
  lemma ClosedAnchorReads(href: string)
    requires '"' !in href
    ensures Anchors(ANCHOR_OPENS + href + "\">Agent/API data</a></p>") == [href]
  {
    hide Anchors, ANCHOR_OPENS;
    var closes := "</" + ['p'] + ">" + "";
    var leaves := "</" + ['a'] + ">" + closes;
    assert ANCHOR_OPENS + href + "\">Agent/API data</a></p>"
           == ANCHOR_OPENS + href + ['"'] + (">Agent/API data" + leaves);
    AnchorReads(href, ">Agent/API data" + leaves);
    NoAnchorBefore(">Agent/API data", leaves);
    ClosingTag('a', closes);
    ClosingTag('p', "");
    NoAnchors();
  }

  lemma FooterHasOneAnchor(links: seq<DiscoveryLink>)
    requires FooterHref(links) != "" && '"' !in FooterHref(links)
    ensures Anchors(Footer(links)) == [FooterHref(links)]
  {
    StyleOpensNothing();
    hide Anchors, FOOTER_STYLE, Joined, FooterHref;
    var href := FooterHref(links);
    var anchor := ANCHOR_OPENS + href + "\">Agent/API data</a></p>";
    ClosedAnchorReads(href);
    var style := Joined(FOOTER_STYLE);
    assert Footer(links) == ['<', 'p'] + (style + anchor);
    OtherElement('p', style + anchor);
    NoAnchorBefore(['p'], style + anchor);
    NoAnchorInPieces(FOOTER_STYLE, anchor);
  }

  predicate IsFirstLlmsLink(links: seq<DiscoveryLink>, k: nat) {
    k < |links| && links[k].rel == "llms-txt" && forall j :: 0 <= j < k ==> links[j].rel != "llms-txt"
  }

  lemma {:induction false} FirstLlmsLinkDecides(links: seq<DiscoveryLink>, k: nat)
    requires IsFirstLlmsLink(links, k)
    ensures FooterHref(links) == links[k].href
    decreases k
  {
    if k > 0 {
      assert forall j :: 0 <= j < k - 1 ==> links[1..][j] == links[j + 1];
      FirstLlmsLinkDecides(links[1..], k - 1);
    }
  }

  lemma {:induction false} NoLlmsLinkNoFooter(links: seq<DiscoveryLink>)
    requires forall l :: l in links ==> l.rel != "llms-txt"
    ensures FooterHref(links) == ""
    decreases |links|
  {
    if links != [] {
      assert links[0] in links && forall l :: l in links[1..] ==> l in links;
      NoLlmsLinkNoFooter(links[1..]);
    }
  }

  lemma EmptyFooter(links: seq<DiscoveryLink>)
    requires FooterHref(links) == ""
    ensures Footer(links) == ""
  {
  }

  /** The stretch put before the closing body tag has one anchor, and it leads where the first llms-txt link does. */
  lemma InjectedFooterReadsBack(body: string, links: seq<DiscoveryLink>, k: nat)
    requires FindBodyClose(body).Some? && IsFirstLlmsLink(links, k) && links[k].href != "" && '"' !in links[k].href
    ensures var out, at := WithFooter(body, links), FindBodyClose(body).value.0;
            && |body| <= |out| && out[..at] == body[..at] && out[at + |out| - |body|..] == body[at..]
            && Anchors(out[at..at + |out| - |body|]) == [links[k].href]
  {
    var out, at := WithFooter(body, links), FindBodyClose(body).value.0;
    FirstLlmsLinkDecides(links, k);
    FooterHasOneAnchor(links);
    hide FindBodyClose, Anchors, Footer, FooterHref, IsFirstLlmsLink, Splice;
    SpliceParts(body, at, Footer(links));
  }

  /** Without an llms-txt link, or if the first leads nowhere, the page stays as it is. */
  lemma NoTargetNoFooter(body: string, links: seq<DiscoveryLink>)
    requires (forall l :: l in links ==> l.rel != "llms-txt")
             || exists k: nat :: IsFirstLlmsLink(links, k) && links[k].href == ""
    ensures WithFooter(body, links) == body
  {
    if k: nat :| IsFirstLlmsLink(links, k) && links[k].href == "" {
      FirstLlmsLinkDecides(links, k);
    } else {
      NoLlmsLinkNoFooter(links);
    }
    EmptyFooter(links);
    hide FindBodyClose, Footer, FooterHref;
    if FindBodyClose(body).Some? {
      var at := FindBodyClose(body).value.0;
      assert body == body[..at] + "" + body[at..];
    }
  }

  predicate InTag(s: string, opens: string, name: string, inside: string) {
    s == opens + name + inside + ">"
  }

  /** The head expression takes any casing of the name, and anything behind it that holds no '>'. */
  lemma HeadTagIff(s: string)
    ensures IsHeadTag(s) <==>
            exists name, inside :: InTag(s, "<", name, inside) && ToLower(name) == "head" && '>' !in inside
  {
    if IsHeadTag(s) {
      LowerTail("<", s[1..5]);
      assert s[..5] == "<" + s[1..5] by { assert ToLower(s[..5])[0] == "<head"[0]; }
      assert InTag(s, "<", s[1..5], s[5..|s| - 1]);
      assert "<head"[1..] == "head";
    }
    if name, inside :| InTag(s, "<", name, inside) && ToLower(name) == "head" && '>' !in inside {
      assert |name| == 4 && s[..5] == "<" + name && s[5..|s| - 1] == inside;
      assert ToLower(s[..5]) == "<head";
    }
  }

  lemma ClosesBody(s: string, name: string, inside: string)
    requires InTag(s, "</", name, inside) && ToLower(name) == "body" && forall c :: c in inside ==> IsRegexSpace(c)
    ensures IsBodyClose(s)
  {
    assert |name| == 4 && s[..6] == "</" + name;
    assert ToLower(s[..6]) == "</body";
    forall k | 6 <= k < |s| - 1
      ensures IsRegexSpace(s[k])
    {
      assert s[k] == inside[k - 6];
    }
  }

  /** The body expression takes any casing of the name, and white space behind it. */
  lemma BodyCloseIff(s: string)
    ensures IsBodyClose(s) <==>
            exists name, inside ::
              InTag(s, "</", name, inside) && ToLower(name) == "body" && forall c :: c in inside ==> IsRegexSpace(c)
  {
    if IsBodyClose(s) {
      LowerTail("</", s[2..6]);
      assert s[..6] == "</" + s[2..6] by {
        assert ToLower(s[..6])[0] == "</body"[0] && ToLower(s[..6])[1] == "</body"[1];
      }
      assert "</body"[2..] == "body";
      assert InTag(s, "</", s[2..6], s[6..|s| - 1]);
    }
    if name, inside :|
      InTag(s, "</", name, inside) && ToLower(name) == "body" && forall c :: c in inside ==> IsRegexSpace(c)
    {
      hide IsBodyClose, IsRegexSpace;
      ClosesBody(s, name, inside);
    }
  }

  lemma LowerTail(opens: string, name: string)
    ensures ToLower(opens + name)[|opens|..] == ToLower(name)
  {
  }
}
