# Answerable: a verified model of its core

Answerable publishes a provider's facts to agents, takes booking requests for human
review, and bolts discovery links onto an existing site.  This project models the parts
of it that carry state or meaning and proves what they promise:

- `RateLimit`: the per-client token buckets and their lazy sweep;
- `ColumnNames`, `Xlsx`, `SharedStrings`, `XlsxRecord`: the spreadsheet reader;
- `Inject`, `ResponsePipeline`: link injection and the two nested response writers;
- `TextParser`, `TextLines`, `LlmsTxt`, `JsonFlattener`, `Pdf`, `PdfFacts`: facts from and to text;
- `ConfigStore`, `AdminServer`, `AdminInterleaved`, `AdminAgreement`: admin memory, public
  endpoint and database row, first with handlers that do not overlap, then step by step, and
  when the step-by-step system still keeps them in agreement;
- `Booking`, `BookingInterleaved`, `PublicRequests`: the booking queue, with `resolve` as one
  step and as two, and the public requests that reach it.

Code that works step by step is modelled by methods and classes.  Each is proved equal to a
function on its state, and the properties are proved of that function.  `dafny verify dfyconfig.toml` checks everything.

## What holds only under a condition

Several natural claims are false of the code.  Each is stated with the exact condition:

- The sweep of idle rate-limit entries is invisible if and only if an idle entry has refilled
  by the time it can be deleted: `ttl * rps >= burst`, or there is no limit, or no room for one
  token (`RateLimit.SweepingIsInvisibleIff`).  All these results take call times in
  non-decreasing order; the code reads the clock before it takes the lock, so two calls may in
  fact enter in the opposite order.
- Head links move the footer's anchor unchanged if and only if no link text holds a closing body
  tag, or the page's own comes first (`Inject.AnchorKeptIff`).
- The JSON record is independent of Go's map order if and only if no two leaves with different
  texts share a dotted key (`JsonFlattener.OrderIrrelevantIff`); an empty key breaks this, because
  `""` also means "no prefix" (`JsonFlattener.EmptyKeysClash`).
- A record survives `llms.txt` and the text parser if and only if no key or value needs cleaning up
  (`LlmsTxt.RoundTripIff`).
- The sheet reader panics if and only if a value ends before the first row, or a row ends that
  holds a value too far to the right for a Go slice: 2^44 strings on 64-bit Linux
  (`Xlsx.PanicsIff`).  A well-nested sheet is read if and only if its rows are shorter
  (`Xlsx.WellNestedSheetsAreRead`); one distant cell reference is enough (`Xlsx.FarCellPanics`).
- With one status line, a site response is a function of header, status and body if and only if no
  404 that was HTML when announced has lost that type when it is flushed, or the hint that then
  replaces the page is what it would have been anyway (`ResponsePipeline.PipelineIsPureIff`).
- A configuration survives the database if and only if it is in whole seconds and its time is not
  the one second that stands for "never" (`ConfigStore.SaveLoadRoundTrip`).  A second in the
  database is written back as it is if and only if it is not that of Go's zero time
  (`ConfigStore.UnixSurvivesIff`).
- Endpoint, admin memory and row agree after every step of a run without overlaps if and only if
  every step is harmless: a failed save of something new, or a restart that cannot read the
  database or the source while there is something to lose, is not (`AdminServer.AgreeThroughoutIff`).
- With overlaps, each copy holds one commit's data whole, and all agree if and only if each was last
  written by a commit that left in it what the latest one did (`AdminAgreement.AgreeIffUpToDate`).
  If every copy is written in commit order that is so whenever nothing is under way
  (`AdminAgreement.OrderlyRunsAgreeWhenQuiet`); two overlapping posts can break the order, and then
  the older configuration stays on disk (`AdminAgreement.CrossingSavesLoseUpdate`).
- The provider comes from the current source if and only if the commit that decided was a boot, a
  source change, or a refresh whose source was still current (`AdminAgreement.ServesCurrentSourceIff`);
  a refresh overlapping a source change can end at rest, in agreement, and stale (`AdminAgreement.StaleRun`).
- The `UPDATE` of a booking does not check the status again, so a confirm and a deny can both
  succeed; an update is a second success if and only if that check would have failed
  (`BookingInterleaved.SecondSuccessIff`).

## Where code and documentation differ

The model follows the code:

- `internal/siteproxy/inject.go` speaks of the opening `<head>` tag; its expression also matches
  `<header>` and any other tag whose name starts with `head`.
- A PDF octal escape such as `\101` (ISO 32000-1:2008, section 7.3.4.2) loses only its backslash.
- The text of a shared string includes phonetic runs, which ECMA-376 Part 1 (section 18.4.8) keeps apart.
- `internal/endpoint/ratelimit.go` says one caller's usage never affects another's; a caller's request
  can delete another's entry, which stays unnoticed only under the refill condition above.

## Model

| member | source | states |
|---|---|---|
| RateLimit.SweepingIsInvisible | internal/endpoint/ratelimit.go:58-83 | with refill within ttl, a limiter that never sweeps decides every non-decreasing call sequence alike |
| RateLimit.SweepingIsInvisibleIff | internal/endpoint/ratelimit.go:58-83 | that condition on rate, burst and ttl is exact: when it fails, some run is decided differently |
| RateLimit.SweepingShows | internal/endpoint/ratelimit.go:67-81 | the run that tells them apart: drain the burst, wait just past ttl, ask for the burst again |
| RateLimit.DefaultsRefillWithinTTL | internal/endpoint/ratelimit.go:18-22 | the shipped constants meet the condition |
| RateLimit.KeysAreIsolated | internal/endpoint/ratelimit.go:24-25 | a key's decisions are those of a single bucket fed with that key's calls only |
| RateLimit.GrantedIff | internal/endpoint/ratelimit.go:58-83 | with refill within ttl, a call is granted exactly if, since each earlier call of its key and since itself, the key's grants and this one are at most burst + rps * elapsed time |
| RateLimit.WindowBound | internal/endpoint/ratelimit.go:42-44 | whatever came before, one key gets at most burst + rps * length in any time window |
| RateLimit.WindowBoundWithoutRefill | internal/endpoint/ratelimit.go:64-82 | without the condition, whatever came before, at most one further burst per whole ttl that fits into the window |
| RateLimit.VisitorsAreForgotten | internal/endpoint/ratelimit.go:64-81 | after every call each stored visitor was seen within the last 2 * ttl |
| RateLimit.IpRateLimiter.Allow | internal/endpoint/ratelimit.go:58-83 | the object with its map of visitors does what the limiter function does, and answers the same |
| RateLimit.IpRateLimiter.DeleteIdle | internal/endpoint/ratelimit.go:68-72 | in any iteration order the loop deletes exactly the entries idle for longer than ttl |
| RateLimit.IpRateLimiter.constructor | internal/endpoint/ratelimit.go:44-56 | a new limiter knows nobody |
| ColumnNames.ColIndex | internal/parser/xlsx.go:214-227 | the loop over wrapping 64-bit integers gives the letters' bijective base-26 value less one, wrapped once; -1 for anything but capital letters |
| ColumnNames.ColIndexOfColumnName | internal/parser/xlsx.go:212-227 | printing a column and any digits and reading it back wraps the column to 64 bits, so it is the identity exactly below 2^63 |
| ColumnNames.ValueOfName | internal/parser/xlsx.go:219-226 | every number is the value of the name printed for it |
| ColumnNames.NameOfValue | internal/parser/xlsx.go:219-226 | every name is the one printed for its value |
| ColumnNames.NameOrderIsColumnOrder | internal/parser/xlsx.go:219-226 | shorter first and then alphabetical is the order of the columns |
| ColumnNames.WrapsIffTooLong | internal/parser/xlsx.go:219-226 | a name is read wrongly exactly when its number exceeds 2^63; never up to 13 letters, always from 15 |
| Xlsx.ReadRows | internal/parser/xlsx.go:135-201 | the token loop with its local variables ends in the state of the token machine, or panics with it, on a nil map or an impossible slice length |
| Xlsx.FirstAttributeCounts | internal/parser/xlsx.go:203-210 | of several attributes of one local name the first is read |
| Xlsx.WellNestedSheetsAreRead | internal/parser/xlsx.go:135-201 | a well-nested sheet, whatever else it contains, is read without a panic exactly when each row's width is a possible slice length, and then as rows whose entry c is the last value resolved to column c |
| Xlsx.PanicsIff | internal/parser/xlsx.go:149-195 | any token stream makes the reader panic exactly if some value ends, with a column in force, before any row starts, or some row ends after a value in too large a column since the last row start |
| Xlsx.WidthIsLargestColumn | internal/parser/xlsx.go:183-193 | a row is one longer than the largest column that holds a value |
| Xlsx.CellOutsideRowPanics | internal/parser/xlsx.go:182 | the shortest instance: a cell value before any row is an assignment to a nil map |
| Xlsx.GridRoundTrip | internal/parser/xlsx.go:159-193 | a grid printed with A1 references, positionally or both, with values of any type, shared strings, and shared numbers out of range, which stand for themselves, comes back with trailing empty cells trimmed, exactly if no trimmed row exceeds the slice limit |
| Xlsx.PrintedRowReadsBack | internal/parser/xlsx.go:159-193 | the same for one row, read from any state between rows |
| Xlsx.FarCellPanics | internal/parser/xlsx.go:188 | a sheet of one cell whose reference lies beyond the slice limit panics |
| SharedStrings.ReadSharedStrings | internal/parser/xlsx.go:87-131 | the token loop computes the table machine's strings |
| SharedStrings.TablesAreRead | internal/parser/xlsx.go:98-129 | item k is the concatenated text of the k-th si element, whatever else the table contains |
| XlsxRecord.RecordOfRows | internal/parser/xlsx.go:50-65 | fails below two rows; otherwise each entry is the value under the last header of that name that has one |
| XlsxRecord.RecordIsDetermined | internal/parser/xlsx.go:54-64 | that description fits one record only |
| Inject.NotOnlyHeadCounts | internal/siteproxy/inject.go:30 | header elements count as head, and so does a head tag that swallows a closing body tag; thead does not |
| Inject.HeadTagIff | internal/siteproxy/inject.go:30 | the head expression matches any casing of the name with anything but a closing bracket behind it |
| Inject.BodyCloseIff | internal/siteproxy/inject.go:31 | the closing body expression matches any casing of the name with white space behind it |
| Inject.FindHead | internal/siteproxy/inject.go:30 | a match of the head expression with none starting before it, or there is no match |
| Inject.FindBodyClose | internal/siteproxy/inject.go:31 | the same for the closing body expression |
| Inject.InjectHeadLinks | internal/siteproxy/inject.go:51-67 | all tags in order, spliced in behind the head match, or the body untouched |
| Inject.InjectHiddenFooterLink | internal/siteproxy/inject.go:69-93 | the footer for the first llms-txt link spliced in before the closing body tag, or the body untouched |
| Inject.InjectLinks | internal/siteproxy/inject.go:45-49 | both, the second on the result of the first |
| Inject.TagsReadBackIff | internal/siteproxy/inject.go:57-60 | a reader of link elements gets exactly the links, in order, from the inserted tags, exactly if no rel or href holds a double quote |
| Inject.InjectedHeadReadsBack | internal/siteproxy/inject.go:51-67 | in any page with a head, the stretch behind the head match reads as those links, and the rest is the page |
| Inject.InjectedFooterReadsBack | internal/siteproxy/inject.go:69-93 | the stretch before the closing body tag has one anchor, leading where the first llms-txt link does, and the rest is the page |
| Inject.NoTargetNoFooter | internal/siteproxy/inject.go:75-83 | without an llms-txt link, or if the first has no href, the page stays as it is |
| Inject.TagsMatchIffLinksDo | internal/siteproxy/inject.go:57-60 | the inserted tags hold a closing body tag exactly when some rel or href does |
| Inject.AnchorKeptIff | internal/siteproxy/inject.go:45-48 | after the head links the first closing body tag is the original one, moved along, exactly when the links are clean or it came first |
| Inject.InjectionIsTwoSplices | internal/siteproxy/inject.go:33-49 | with clean links the result is the original with the two pieces at the original's own anchors, in either order, also when the closing tag lies inside the head tag |
| Inject.DefaultLinksAreClean | internal/siteproxy/inject.go:23-28 | the shipped links are clean |
| ResponsePipeline.PipelineIsPureUnlessLost | internal/siteproxy/fileserver.go:39-66 | a handler that sends one status line, whatever it does to its headers and when, gets one header and a body that is a function of header, status and body: injected HTML with its exact length, the hint for another 404, the rest as it is; and the hint in place of a 404 page that stopped being HTML |
| ResponsePipeline.PipelineIsPureIff | internal/endpoint/server.go:145-190 | that function alone describes the response exactly if no page is lost that way, or the hint is what it would have been |
| ResponsePipeline.PagesAreInjectedByType | internal/siteproxy/fileserver.go:39-66 | a page sent with any type that begins with text/html is injected, one of another type is passed on or, as a 404, replaced by the hint, with the handler's status |
| ResponsePipeline.HintIsPlainText | internal/endpoint/server.go:181-190 | the hint goes out as plain text with its length in decimals, status 404, and all other headers kept |
| ResponsePipeline.PlainPipelineIsPure | internal/endpoint/server.go:137-190 | on routes without a site: one header, the hint for a 404 that was not HTML when announced, everything else unchanged |
| ResponsePipeline.ChunkingIsInvisible | internal/endpoint/server.go:162-170 | two writes leave all writers in the state one joint write does, from any state |
| ResponsePipeline.JoiningWritesIsInvisible | internal/siteproxy/fileserver.go:48-56 | so cutting the body differently never changes the response of any handler |
| ResponsePipeline.LateContentTypeReplacesPage | internal/endpoint/server.go:181-190 | every handler with an HTML 404 loses its page by setting or deleting the type at the end |
| ResponsePipeline.ServeSite | internal/endpoint/server.go:137-143 | the writer objects, stacked and flushed as in the code, send what the pure pipeline sends |
| ResponsePipeline.NotFoundHintWriter.WriteHeader | internal/endpoint/server.go:153-160 | holds back exactly a 404 that is not HTML |
| ResponsePipeline.NotFoundHintWriter.Write | internal/endpoint/server.go:162-170 | implies status 200, then buffers or passes on |
| ResponsePipeline.NotFoundHintWriter.Flush | internal/endpoint/server.go:181-190 | a held-back response becomes the hint with its length |
| ResponsePipeline.BufferingResponseWriter.WriteHeader | internal/siteproxy/fileserver.go:39-46 | holds back exactly HTML |
| ResponsePipeline.BufferingResponseWriter.Write | internal/siteproxy/fileserver.go:48-56 | implies status 200, then buffers or passes on |
| ResponsePipeline.BufferingResponseWriter.Flush | internal/siteproxy/fileserver.go:58-66 | a held-back page is injected and sent with its status and new length |
| TextParser.ParseText | internal/parser/text.go:9-33 | the loop enters the facts of the lines one after another, later ones winning |
| TextParser.ParsedShape | internal/parser/text.go:14-26 | whatever the text, keys and values come out non-empty, trimmed and free of decoration, keys without blanks or capitals |
| TextParser.StrippedShape | internal/parser/text.go:35-43 | a stripped line is trimmed and holds only characters of the line, no asterisk and no underscore |
| TextLines.DecoratedFact | internal/parser/text.go:35-49 | a line with any indent, bullet, hashes, emphasis marks and blanks around key and value gives the key in lower case with underscores for blanks, and the value |
| TextLines.NoColonNoFact | internal/parser/text.go:16-19 | a line without a colon gives nothing |
| TextLines.TextParses | internal/parser/text.go:9-33 | a text of such lines and of lines without a colon, with either line end, parses to exactly their facts, later ones winning |
| LlmsTxt.RenderProperties | internal/llmstxt/render.go:26-39 | collecting the keys in any order renders the same text |
| LlmsTxt.SortedIsUnique | internal/llmstxt/render.go:31 | there is one sorted arrangement of the keys |
| LlmsTxt.SortStringsSorts | internal/llmstxt/render.go:31 | sorting orders the keys and keeps each as often as it was there |
| LlmsTxt.LeqIff | internal/llmstxt/render.go:31 | the order is that of the first differing byte, prefixes first |
| LlmsTxt.RenderedFact | internal/parser/text.go:35-49 | what the parser makes of one rendered fact whose key and value have the shape of parsed ones |
| LlmsTxt.RoundTripIff | internal/parser/text.go:9-49 | parsing the rendered facts returns the record exactly when its keys and values need no clean-up |
| JsonFlattener.FlattenJSON | internal/parser/json.go:36-57 | the recursion into one shared record is a run of the loop in some order |
| JsonFlattener.RunExtends | internal/parser/json.go:36-57 | every order extends the record by the non-null leaves, one per dotted key, and touches nothing else |
| JsonFlattener.LeafCanWin | internal/parser/json.go:37-55 | each leaf can be the last one written under its key |
| JsonFlattener.OrderIrrelevantIff | internal/parser/json.go:36-57 | all orders agree exactly when no two leaves with different texts share a key |
| JsonFlattener.LeavesArePaths | internal/parser/json.go:38-44 | for well-keyed values the leaves are the non-null ends of paths, under their dotted names |
| JsonFlattener.DottedIsInjective | internal/parser/json.go:38-41 | distinct leaves of a well-keyed value have distinct dotted keys |
| JsonFlattener.WellKeyedFlattening | internal/parser/json.go:36-57 | distinct, non-empty, dot-free keys: one record for all orders, one entry per leaf at its dotted path and no others |
| JsonFlattener.FieldIsRecorded | internal/parser/json.go:43-55 | a scalar field of a well-keyed object is recorded under its name as its text, a boolean as true or false |
| JsonFlattener.NestedFieldIsRecorded | internal/parser/json.go:38-44 | one level down, under both names joined by a dot |
| JsonFlattener.EmptyKeysClash | internal/parser/json.go:39-41 | an empty key makes the order visible |
| Pdf.DecodePDFString | internal/parser/pdf.go:77-103 | the index loop decodes as the recursive reading of escapes does |
| Pdf.ExtractShowOperators | internal/parser/pdf.go:59-75 | one line for each operator with something pending, and the rest forgotten |
| Pdf.TokensAreLiterals | internal/parser/pdf.go:15 | what the string expression accepts is a sequence of plain bytes and complete escapes, closed by a parenthesis |
| Pdf.NoTokenEndsInLoneBackslash | internal/parser/pdf.go:80-83 | no token of any content reaches the decoder's trailing-backslash case |
| Pdf.DecodedIsMeant | internal/parser/pdf.go:77-103 | every literal decodes to what its units stand for |
| Pdf.EscapeControlsMeansItself | internal/parser/pdf.go:84-100 | text written with the letters for control characters and backslashed delimiters decodes to itself |
| Pdf.ShowsAreExtracted | internal/parser/pdf.go:59-103 | content made of literals, filler and show operators gives back each operator's joined operands as a line, empty ones omitted |
| Pdf.EscapedTextsRoundTrip | internal/parser/pdf.go:59-103 | any texts, escaped and shown, come back one line each |
| PdfFacts.ShownFactsRoundTrip | internal/parser/pdf.go:22-43 | a record's facts shown as strings are parsed back to the record |
| ConfigStore.SaveLoadRoundTrip | internal/config/store.go:125-208 | saving and loading is the identity exactly on whole seconds and times other than second 0, and idempotent on all |
| ConfigStore.ToRowOfFromRow | internal/config/store.go:125-208 | loading and saving again writes the same row |
| ConfigStore.UnixSurvivesIff | internal/config/store.go:196-208 | every second of the time column but that of Go's zero time is written back as it was |
| ConfigStore.TimeSurvivesIff | internal/config/store.go:196-208 | the times that come back are the whole seconds other than second 0 |
| ConfigStore.SecondsAreTruncated | internal/config/store.go:189 | the saved interval is the whole seconds, the fraction dropped toward zero |
| ConfigStore.StorableIsDetermined | internal/config/store.go:125-208 | a row is the image of exactly one storable configuration, the one loaded from it |
| ConfigStore.Store.Save | internal/config/store.go:166-194 | the row becomes the configuration's image, or nothing changes |
| ConfigStore.Store.Load | internal/config/store.go:125-164 | the storable configuration whose image the row is; none without a row, and an error if the query fails |
| ConfigStore.AcceptedIffFromRecord | internal/facts/provider.go:14-29 | the providers with a name and no name property are exactly those made from records |
| ConfigStore.FromRecordIff | internal/facts/provider.go:14-29 | a record gives a provider exactly if it is that provider's properties with its name added, and none exactly if its name is missing or empty |
| AdminServer.ReplicasAgree | internal/admin/server.go:79-168 | while saves succeed and restarts can read row and source, endpoint, admin memory and row agree after every sequence of handlers and restarts |
| AdminServer.StepAgreesIff | internal/admin/onboarding.go:154-317 | a handler or restart, failing or not, keeps agreement exactly if it is harmless, a condition on its inputs and the state before: an unsaved change must change nothing, a restart must have nothing to lose |
| AdminServer.AgreeThroughoutIff | internal/admin/server.go:49-168 | over any run from any row, all copies agree after every step exactly if the start and every step are harmless |
| AdminServer.BootAgreesIff | internal/admin/server.go:67-98 | a new process agrees with its row exactly if there is none, or an unread one says nothing, or one without its source has nothing else to publish, or one with it has no e-mail settings without a recipient |
| AdminServer.RunsAreSound | internal/admin/server.go:120-168 | in every run providers are empty or accepted, and a refresher runs only for a link with a positive interval, at that interval |
| AdminServer.StepIsSound | internal/admin/server.go:131-152 | an accepted source decides whether a refresher runs, and a failed refresh changes nothing but the error |
| AdminServer.TypedEmailIsStored | internal/admin/onboarding.go:271-315 | settings typed with any padding are stored and published as meant, the old password kept if none is given, exactly if host, sender and recipient are there, the port is 1 to 65535 and the addresses parse; otherwise nothing changes |
| AdminServer.UnnumberedPortChangesNothing | internal/admin/onboarding.go:271-286 | without a port number an empty form skips the step and any other changes nothing |
| AdminServer.PageRoundTrip | internal/admin/onboarding.go:319-331 | posting the e-mail page as it is shown leaves the configuration as it was |
| AdminServer.PageEditsOneField | internal/admin/onboarding.go:261-331 | editing one field of the page changes that setting only |
| AdminServer.RunsKeepPresentable | internal/admin/onboarding.go:271-303 | in every run the settings are none or complete and trimmed, so the page round trip holds in every state |
| AdminServer.MinutesAreRead | internal/admin/onboarding.go:145-148 | minutes are read with any padding; a negative number or no number counts as 0 |
| AdminServer.TypedLinkIsStored | internal/admin/onboarding.go:128-172 | a link that loads sets source, interval in minutes, label, time, provider and refresher, and nothing else |
| AdminServer.UploadIsStored | internal/admin/onboarding.go:96-172 | an upload that loads sets them too, without an interval or a refresher |
| AdminServer.UnusableSourceChangesNothing | internal/admin/onboarding.go:80-143 | both or neither source, a record without a name, an unwritable upload or an invalid link changes nothing |
| AdminServer.TypedWebhookIsStored | internal/admin/onboarding.go:203-233 | a webhook address is stored and published without its padding; a blank one ends the onboarding |
| AdminServer.ErrorShownIff | internal/admin/server.go:79-152 | over any run an error is kept exactly if the last load, in a refresh, an accepted source or a restart with a row, failed |
| AdminServer.OnboardingIff | internal/admin/server.go:62-71 | over any run the onboarding is open exactly if the last start could read no row and nothing has finished it since |
| AdminServer.Server.constructor | internal/admin/server.go:49-102 | New with restore brings up the state the row and its source determine, and an empty one if the row cannot be read |
| AdminServer.Server.StartRefresherLocked | internal/admin/server.go:120-129 | afterwards every earlier refresher is stopped and one runs exactly for a link with a positive interval |
| AdminServer.Server.RefreshFromSource | internal/admin/server.go:134-168 | the refresh step on admin, store and endpoint objects |
| AdminServer.Server.HandleSource | internal/admin/onboarding.go:52-179 | the source handler with its rejections, commit, save and publication |
| AdminServer.Server.HandleWebhook | internal/admin/onboarding.go:203-233 | the webhook handler |
| AdminServer.Server.HandleEmail | internal/admin/onboarding.go:261-317 | the e-mail handler; an empty password keeps the old one |
| AdminServer.Refresher.Stop | internal/ingest/refresher.go:48-54 | stops, any number of times |
| AdminServer.EndpointServer.UpdateProvider | internal/endpoint/server.go:55-59 | replaces the provider only |
| AdminInterleaved.KnownGoodInEveryInterleaving | internal/admin/server.go:134-168 | in every interleaving served providers are empty or accepted, and the row is the image of one configuration the admin held at some point of the run, or of the one it started from |
| AdminInterleaved.OneLiveRefresher | internal/ingest/refresher.go:29-54 | in every interleaving at most one stop channel is open, and only for a link with a positive interval |
| AdminInterleaved.SourceCommitSetsRefresher | internal/admin/server.go:120-129 | a source commit leaves one open exactly for a link with a positive interval |
| AdminInterleaved.FailedLoadChangesNothing | internal/admin/server.go:139-152 | a refresh whose load fails leaves configuration, providers and row alone |
| AdminInterleaved.RefreshUninterrupted | internal/admin/server.go:134-168 | five steps in a row are the atomic refresh |
| AdminInterleaved.SourceUninterrupted | internal/admin/onboarding.go:154-172 | three steps in a row are the atomic source change |
| AdminInterleaved.WebhookUninterrupted | internal/admin/onboarding.go:217-231 | four steps in a row are the atomic webhook change |
| AdminInterleaved.EmailUninterrupted | internal/admin/onboarding.go:288-315 | five steps in a row are the atomic e-mail change |
| AdminInterleaved.EmptyPostsUninterrupted | internal/admin/onboarding.go:203-208 | a blank address or an empty form arrives and finishes as the atomic handlers do |
| AdminAgreement.ServesCurrentSourceIff | internal/admin/server.go:134-168 | in every interleaving the admin's provider came from the current source exactly if the last event that committed one was a boot, a source change, or a refresh whose source was current when it committed |
| AdminAgreement.UndisturbedRunsAreFresh | internal/admin/server.go:135-159 | if no source commit falls between a refresh's read and its commit, the admin's provider came from the current source |
| AdminAgreement.StaleRun | internal/admin/server.go:135-166 | from every start, a source change between a refresh's read and its commit ends at rest and in agreement with the old source's provider served under the new source |
| AdminAgreement.AgreeIffUpToDate | internal/admin/onboarding.go:154-172 | in every interleaving, with failures and crashes, endpoint, memory and row agree exactly if each copy was last written by a commit that left in it what the latest one concerning it left |
| AdminAgreement.OrderlyRunsAgreeWhenQuiet | internal/admin/onboarding.go:154-172 | overlapping handlers whose saves succeed and whose writes to each copy come in commit order, restarted only where a restart is harmless, leave all copies in agreement whenever nothing is under way |
| AdminAgreement.CrossingSavesLoseUpdate | internal/admin/onboarding.go:217-229 | on every database, two webhook posts whose saves cross both succeed and leave the older address in the row |
| Booking.Store.Enqueue | internal/booking/store.go:122-159 | appends one pending row with its expiry, unless tokens run out or clash |
| Booking.Store.Resolve | internal/booking/store.go:161-191 | changes the status of the token's row if it is pending and in time, with the error for each other case |
| Booking.Store.Status | internal/booking/store.go:206-228 | the row of a non-empty status token |
| Booking.Store.List | internal/booking/store.go:230-252 | every request once, oldest first |
| Booking.StepOnRow | internal/booking/store.go:122-191 | a row only ever changes from pending to a resolution of its own token, no later than its expiry |
| Booking.EnqueueGoesThroughIff | internal/booking/store.go:122-159 | in any run an Enqueue returns its request exactly if it drew tokens and no earlier one that went through drew the same id or token; else which error |
| Booking.UnknownIffUnissued | internal/booking/store.go:161-176 | in any run a token is unknown exactly while no Enqueue that went through has given it out |
| Booking.ResolutionIff | internal/booking/store.go:161-191 | in any run a confirm or deny of an issued token succeeds, returning that Enqueue's request with the new status, exactly if no success for it came before and it is at most 48 hours later; else which error |
| Booking.TokensResolveOnce | internal/booking/store.go:161-199 | no token is confirmed or denied twice in any run |
| Booking.StatusIsFinal | internal/booking/store.go:161-199 | a success is in time and its status stands at the end of every run |
| Booking.StatusTokensOnlyRead | internal/booking/store.go:201-228 | with fresh tokens a status token finds its own row and never resolves any |
| Booking.EmptyStatusTokenIsUnknown | internal/booking/store.go:207-209 | the empty string is refused whatever the table holds |
| Booking.StatusReportsResolution | internal/booking/store.go:201-228 | the requester's token reports a resolution in every later state |
| BookingInterleaved.FinalStatusIsLegitimate | internal/booking/store.go:161-191 | a row is pending exactly while nothing went through; otherwise its status was written by a resolver that saw it pending and in time |
| BookingInterleaved.NeverPendingAgain | internal/booking/store.go:185 | no interleaving makes a final row pending |
| BookingInterleaved.RivalsOverlap | internal/booking/store.go:161-191 | two successes for one token have overlapping intervals from SELECT to UPDATE |
| BookingInterleaved.BothCanSucceed | internal/booking/store.go:178-188 | from any state with a pending row, an overlapping confirm and deny both succeed and the later update stays |
| BookingInterleaved.SecondSuccessIff | internal/booking/store.go:178-187 | an update is a second success exactly when the status check, repeated, would say "already used" |
| BookingInterleaved.UninterruptedResolve | internal/booking/store.go:161-191 | with nothing in between the two steps are the atomic resolution |
| PublicRequests.BookIntake | internal/endpoint/booking.go:35-77 | trims, rejects, enqueues and words its answer by what was delivered |
| PublicRequests.ResolveToken | internal/endpoint/booking.go:153-173 | only a POST with a token resolves |
| PublicRequests.ChangesIff | internal/endpoint/booking.go:35-173 | a request changes the table exactly if it is an accepted intake or a successful POST |
| PublicRequests.AcceptedIff | internal/endpoint/booking.go:36-50 | an intake is accepted exactly if name and need are not blank, no trimmed field exceeds 500, and its draw is new; the answer carries its status token |
| PublicRequests.SentIffAnnounced | internal/endpoint/booking.go:52-74 | the answer says sent exactly if the e-mail arrived or, with no recipient configured, the webhook did |
| PublicRequests.BookedResolvedReported | internal/endpoint/booking.go:35-173 | with fresh tokens, an accepted booking is reported pending, resolves by a POST within 48 hours, is then reported so, and refuses a second POST |
| PublicRequests.OpeningOnlyShows | internal/endpoint/booking.go:153-173 | opening a link only shows a page, and other verbs or an empty token do nothing |
| PublicRequests.AcceptedAppendsOne | internal/endpoint/booking.go:47-76 | an accepted intake appends one pending row with the trimmed name, contact and need, whatever becomes of the notification |
| PublicRequests.StatusChangesByPostOnly | internal/endpoint/booking.go:147-173 | a status changes only by a POST of the row's own token while it is pending and in time |
| PublicRequests.TableChangesByIntakeOrPost | internal/endpoint/booking.go:35-173 | over any sequence of requests the table grows by the accepted intakes, and rows without a POST of their token stay as they are |

## Left out

- RateLimit.IpRateLimiter.Allow: does not model float64 rounding in `golang.org/x/time/rate` (a deficit worth less than a nanosecond is granted there) nor the mutex; tokens and times are exact reals and calls come one at a time.
- Xlsx.ReadRows: does not model running out of memory on rows short enough for a slice; the slice limit is that of 64-bit Linux. XML tokenising, zip and the choice of the sheet file are not part of this model.
- ResponsePipeline.PipelineIsPureIff: does not model HEAD, 1xx and repeated WriteHeader calls, header name canonicalisation, nor the server's own content sniffing and length check.
- Inject.InjectLinks: bodies are single-byte characters; the two expressions are modelled by the strings they match, not by Go's regular expression engine.
- TextParser.ParseText: does not model the scanner's limit on line length, nor white space and case beyond ASCII.
- JsonFlattener.FlattenJSON: numbers and arrays carry the text Go formats them as; JSON decoding and the choice of an array's first object are not part of this model.
- Pdf.ExtractShowOperators: finding and inflating streams is not part of this model; content starts as bytes.
- ConfigStore.SaveLoadRoundTrip: does not model overflow of 64-bit durations, which needs intervals of centuries.
- ConfigStore.ToRowOfFromRow: rows and times within the first second of the year 1, other than Go's zero time itself, are not values of the model; `UnixSurvivesIff` shows what happens to that second.
- AdminServer.Server.HandleSource: fetching, parsing, URL checks and rewriting, and writing the upload are parameters; `lastErr` is kept as a flag, and overflow of huge refresh minutes is not modelled.
- AdminInterleaved.OneLiveRefresher: a tick may come at any time, also from a stopped refresher, so the ticker's own timing is not modelled.
- Booking.Store.List: the order of requests created at the same instant, which SQL leaves open, is fixed.
- Booking.Store.Enqueue: tokens are parameters; their randomness is not modelled, only freshness where it is needed. Other database errors are left out.
- PublicRequests.BookIntake: lengths count characters, so they are byte lengths for ASCII only; delivery is a parameter.
- CSV, DOCX, PPTX and markup parsing, JSON-LD, the agent card and the MCP transport: rendering and library calls.
- The reverse proxy: the same injection on a library's response object.
- Admin authentication, URL validation, form rendering and static files: single checks and presentation.
- Client address resolution: one branch on a header.
