# Postly, verified

Postly is a local API client. This project models the parts of it that decide something and proves what
they promise, for all inputs, all runs and all environments. Code that updates its variables step by step is
modelled as classes and loops and proved against specification functions; what users rely on is then proved
about those functions. `dafny verify dfyconfig.toml` checks everything.

| File | Models |
|---|---|
| `Text.dfy`, `Json.dfy`, `RequestModel.dfy` | the string operations, JSON values and the native request that the others share |
| `JsonPointer.dfy`, `JsonDiff.dfy` | the bounded structural comparison of two JSON documents (RFC 6901 pointers) |
| `JsonDiffExact.dfy` | which nodes the comparison comes to, which differences it reports, and in which order |
| `Variables.dfy`, `VariablesTheorems.dfy` | `{{name}}` templates over seven scopes, resolved in at most twelve rounds |
| `VariablesDiagnostics.dfy` | exactly what is reported as malformed and as cyclic |
| `ShellWords.dfy`, `Curl.dfy`, `CurlImport.dfy`, `CurlTheorems.dfy` | requests as cURL commands and back |
| `ShellLines.dfy`, `CurlExports.dfy`, `CurlCommands.dfy` | command lines as they are typed: how they are split, what an exported one says, what any other is imported as |
| `Sse.dfy` | the incremental parser of event streams (WHATWG HTML Living Standard, section 9.2) |
| `SseReports.dfy` | how lines, fields and numbers are read, and what each attempt of the worker reports and sends |
| `SseStandard.dfy`, `SseUndecodable.dfy` | an independent reading of that section beside the parser and the worker, and what is lost before a line that is not valid text |
| `Reconnect.dfy`, `SseWorker.dfy`, `WebSocketWorker.dfy` | the streaming workers and their bounded reconnect loop |
| `WebSocketMessages.dfy` | the messages of a WebSocket attempt, select by select |
| `SseCancellation.dfy`, `WebSocketClosing.dfy` | cancelling and closing, at any moment of a run |
| `Tabs.dfy`, `TabsTheorems.dfy`, `TabsShown.dfy`, `TabsEditing.dfy` | open tabs, the working copy beside them, and crash recovery |
| `WorkerSlots.dfy`, `StreamConsole.dfy`, `WorkersShown.dfy` | the mutually exclusive background workers, their cancellation tokens, and what the polls record and show |
| `Editors.dfy`, `EditorsShown.dfy` | loading a request into the editors and taking it back |
| `HtmlPreview.dfy`, `HtmlLines.dfy`, `HtmlEntities.dfy` | the text preview of HTML responses, its lines and its entities |
| `Graphql.dfy` | the query validator and the printer of type references |
| `FolderTrie.dfy` | the folders of an exported collection |

## Conventions

- Rust's `String` is a `seq<char>` of Unicode scalar values. All delimiters that the code searches for are
  single ASCII characters, so cutting by byte offset and by character are the same. The order of `BTreeMap`
  keys, on UTF-8 bytes, is the order on scalar values (`Ordering` in `Text.dfy`).
- Objects of `serde_json` list their members in key order, because the repository does not enable the
  `preserve_order` feature; a JSON object is a `map` that is enumerated through `SortedKeys`. Integers and
  floats are different numbers, as they are for `serde_json::Value`.
- Printing and parsing JSON (`Codec`), form encoding (`Printers`) and UTF-8 decoding (`Decoder`) are parameters, and so
  is the decoding of entities in the preview, whose results hold for every decoding. What is assumed is in
  `Codec.Valid` (parsing inverts printing, and no value prints as nothing; `JsonCodecs.SomeCodecIsValid` shows that
  this can be met) and `Printers.Valid` (an empty list of pairs prints as nothing).
- Random identifiers, the contents of files, and everything that the network, the user and the clock do are
  parameters. A channel is the sequence of updates sent through it, and a console that is closed is a number of
  updates after which sending fails.
- The moments of a streaming run are its select points (`tokio::select!`), numbered in the order in which they are
  reached. A cancellation token is the number of the select that is pending when it is set, and stays set; since
  `select!` polls its branches in random order, the environment says which selects another ready branch won all
  the same (`Token.late`). A WebSocket command has the number of the select that is pending when it is queued, and
  the environment says when a waiting command wins against a frame (`Env.takes`).
- `World.normalise` in `Tabs.dfy` is editing as `Editors.dfy` models it; `TabsEditing.EditorsMakeAWorld` builds that
  world and proves what the tabs assume of it (`Valid`, `Stable`). A request that the editors refuse is left as it is.
- The context of a template (`Describes` in `VariablesTheorems.dfy`) gives the reachable names the texts of templates;
  its other variables may have any value. The text that is resolved may be any text (`EveryTextIsWritten`); the values
  that it reaches are templates, which may hold blanks but open nothing that they do not close.
- Error texts are constructors. Where the first of several errors matters, the contracts say which it is.

## Where the code differs from what a reader may expect

- The comparison reports nothing about an excluded subtree but counts it as one visited node, and a document
  at the limit of 1,000 changes is truncated only when another node follows. `Fits` is the exact condition.
- A chain of thirteen definitions is not resolved fully (`ResolvedFullyExactlyUpToTwelve`,
  `LongChainsAreNotResolved`). A name that only the twelfth round inserts is never inspected
  (`UndefinedReportedExactlyUpToEleven`, `EndOfLongChainIsNotReported`).
- What is malformed is reported again by every round that runs (`MalformedExactly`); for a blank between braces, too, the
  message says that the closing braces are missing.
- The cyclic diagnostic is about repetition: a name that is defined as itself, and two names that are defined as each
  other, are never reported (`SelfReferenceIsNotReported`, `MutualReferenceIsNotReported`), and an undefined name that
  is written twice is (`RepeatedUndefinedIsReportedAsCyclic`). `CyclicExactly` is the exact condition.
- A pasted command that is continued with a backslash at the end of a line is misread: the line feed becomes a word
  (`ContinuedLineIsMisread`). `-G` without data is imported as a POST (`GetWithoutDataIsPosted`), with data it wins
  over `-X` (`GetPutsDataIntoTheQuery`), and `--url` needs an equals sign (`UrlOptionNeedsEqualsSign`).
- The shell's empty word `''` is dropped on import, so an empty raw body makes the exported command
  unreadable (`ParsesExactlyWhenExportable`). Cookies become a header on import, and that header loses
  surrounding white space on the next import (`SecondRoundTripIsIdentity`, `CookieLosesItsSpace`).
- The event stream parser and its worker deviate from sections 9.2.5 and 9.2.6 of the WHATWG HTML Living Standard:
  - lines end with LF or CRLF, never with CR alone; an unterminated last line keeps its carriage return;
  - all byte order marks at the start of the first line are removed, not one;
  - the event left pending at the end of the stream is dispatched, not discarded (`EventsAsTheStandardHears`);
  - a text that is not valid UTF-8 ends the run, where the standard decodes it with replacement characters;
  - a `retry` in a block without data is lost (`RetryWithoutDataIsLost`), one with a leading `+` is taken, and one
    that does not fit 64 bits is ignored; every connection starts again with 250 ms, also after a failed one, instead
    of the delay that was set before (`DelayAsTheStandardKeeps`);
  - when a connection ends inside an event, its id is sent with the next request, which so skips that event
    (`HalfReceivedIdIsSent`); an `id` in a block without data does not reach the next request until an event carries
    it; and an id of an earlier connection is kept when a later one sends none, where the standard forgets it at the
    first blank line (`EarlierIdIsSentAgain`). `IdAsTheStandardKeeps` says exactly when the ids are the same;
  - an empty id is sent as an empty header.
- An SSE chunk with an undecodable line forwards none of its events, not even those of the lines before it, so what
  is forwarded of such a stream depends on how it is cut (`ForwardedAndLost`, `CuttingMattersExactly`, `AnEventIsLost`).
- A WebSocket worker reads its queue only while a session is open. A close that is queued while it connects or waits
  stays in the queue: the worker goes on reconnecting, up to the limit, until a connection opens and takes it
  (`CloseWhileWaitingIsNotHeard`, `CloseIsNotHeardOutsideSessions`). No reconnect follows a close exactly when the
  attempt under way is the last one anyway or takes the close before its session ends
  (`NothingFollowsExactlyWhenTaken`, `NothingFollowsExactlyBeforeTheWait`).
- A cancellation can lose its select to a branch that is ready too. The run then goes on until the token wins one;
  `LaterAttemptsNeedLuck` and `AtMostOneMoreAttempt`, in `SseCancellation` and in `WebSocketClosing`, say how far.
  After `retry: 0` the timer may win every time, up to the limit.
- Closing a tab does not save the working copy first; the application relies on the write-back near the end of the
  frame before, after shortcuts and drawing (`main.rs:8309-8322`). `CloseKeepsWorkExactlyWhenMarked` says when
  closing is safe without it: an edit and a close can fall into the same frame (`CloseDropsAChange`). Discarding the
  recovered drafts does not save it either (`DiscardKeepsWorkExactlyWhenMarked`, `DiscardDropsAChange`).
- A `<` in a suppressed script starts a tag, so `a<b` can hide the closing tag (`ComparisonSwallowsClosingTag`);
  `ElementEndsExactly` says when. This loses text and never shows any. A lone `&` keeps the next entity from being
  decoded (`AmpersandHidesTheNextEntity`).
- Editing drops what has no editor: the client secrets of PKCE and refresh-token authentication, blank
  optional texts, and white space around content types and gRPC settings (`UnchangedExactlyWhenPlain`).
- Two types are written alike when a name itself ends with `!` or stands in brackets, which no GraphQL name does
  (`ReadingInvertsWriting`). GraphQL's own grammar (section 2.11 of the October 2021 edition) does not nest
  non-null types; the printer does, and so does the model.

## Model

| member | source | states |
|---|---|---|
| `JsonDiff.JsonComparison.Visit` | crates/postly-core/src/diff.rs:65-165 | the mutating recursive walk leaves the accumulator exactly as a bounded run over the pre-order list of visited nodes would: one limit check per node, in that order |
| `JsonDiff.JsonComparison.VisitAll` | crates/postly-core/src/diff.rs:86-152 | the loops over children, left as soon as a limit was hit, do the same for a whole list of children |
| `JsonDiff.CompareJson` | crates/postly-core/src/diff.rs:33-63 | accepts exactly two parsed bodies of at most 4 MiB under exclusions that are all JSON Pointers; otherwise says which check failed first; the result is that of the bounded run |
| `JsonDiff.CheckEscapes` | crates/postly-core/src/diff.rs:47-55 | the character loop accepts exactly the texts in which every `~` is followed by `0` or `1` |
| `JsonDiff.PointerError` | crates/postly-core/src/diff.rs:41-56 | no exclusion is refused exactly when all are JSON Pointers |
| `JsonPointer.AcceptedExactlyThePointers` | crates/postly-core/src/diff.rs:41-56 | a text is accepted exactly when it is the rendering of some list of keys, escaped as section 3 of RFC 6901 says |
| `JsonPointer.UnescapeInvertsEscape` | crates/postly-core/src/diff.rs:88-89 | the two replacements made for a key are undone by the two replacements of section 4 of RFC 6901 |
| `JsonPointer.ArrayIndexInvertsDecimal` | crates/postly-core/src/diff.rs:103-117 | the index written for an array element is read back as that index by the rules of section 4 of RFC 6901 |
| `JsonPointer.BranchesAreUnrelated` | crates/postly-core/src/diff.rs:86-152 | pointers below two different children are never equal and never extend each other |
| `JsonDiffTheorems.RunIsBoundedPrefix` | crates/postly-core/src/diff.rs:73-80 | a run handles a prefix of the nodes, keeps both limits, counts the exclusions of that prefix, and is truncated exactly when nodes are left |
| `JsonDiffTheorems.StepsCarryDiff` | crates/postly-core/src/diff.rs:86-163 | the changes carried by the node list are those of the plain recursive comparison without any limit |
| `JsonDiffTheorems.BoundedRefinesUnbounded` | crates/postly-core/src/diff.rs:65-165 | the bounded comparison refines the unbounded one: its changes are a prefix in order, all of them unless truncated, within 100,000 nodes and 1,000 changes; truncated exactly when the walk does not fit the limits |
| `JsonDiffTheorems.ReportedChangesAreTrue` | crates/postly-core/src/diff.rs:86-163 | for all documents and exclusions, evaluating a reported pointer by section 4 of RFC 6901 gives `before` and `after`, which differ, and the kind says which side is missing |
| `JsonDiffTheorems.ReportedPointersAreUnrelated` | crates/postly-core/src/diff.rs:86-163 | no two reported pointers are equal and none extends another by a `/` segment |
| `JsonDiffTheorems.ExclusionsAreAFilter` | crates/postly-core/src/diff.rs:81-84 | excluding pointers removes exactly the changes at or below them from the comparison without exclusions, also inside added and removed containers |
| `JsonDiffTheorems.EmptyExactlyWhenEqual` | crates/postly-core/src/diff.rs:65-165 | an untruncated comparison without exclusions is empty exactly for equal documents |
| `JsonDiffTheorems.SwappingReverses` | crates/postly-core/src/diff.rs:65-165 | swapping the documents keeps pointers, order, counters and truncation, exchanges Added with Removed and before with after, under every exclusion and even when truncated |
| `JsonDiffExact.NodesAre` | crates/postly-core/src/diff.rs:65-165 | the nodes of the walk are those at the paths that it comes to, each once, a node before what is below it, members in key order and items by index; each reports a difference exactly when its pair is as deep as it can be, differs and is not excluded |
| `JsonDiffExact.ReportsExactlyTheDeepestDifferences` | crates/postly-core/src/diff.rs:86-163 | a difference is reported at exactly the paths where the walk meets, not excluded, a pair that differs and is neither two objects nor two arrays, nor a non-empty container on one side only; with both values and the kind, in the order of the walk |
| `JsonDiffExact.TruncatedExactly` | crates/postly-core/src/diff.rs:65-80 | a comparison counts the nodes it comes to and the excluded ones, and is truncated if and only if there are more than 100,000 nodes, one is deeper than 64, or 1,000 changes come before the last node |
| `Variables.VariableContext.VisibleValues` | crates/postly-core/src/variables.rs:58-76 | merging globals, project, collection, environment, request, runtime and iteration, in this order, gives each name exactly the value that the precedence chain finds |
| `Variables.StrongestWins` | crates/postly-core/src/variables.rs:185-197 | the precedence chain finds the value of the last scope, in merge order, that has the name |
| `Variables.SubstituteOnce` | crates/postly-core/src/variables.rs:148-183 | the scanning loop computes one simultaneous substitution: output, names in order, malformed expressions |
| `Variables.Diagnose` | crates/postly-core/src/variables.rs:106-135 | the loops over a round's names append exactly the specified diagnostics |
| `Variables.ResolveRounds` | crates/postly-core/src/variables.rs:99-146 | the round loop computes the specified iteration, stopping at a fixed point |
| `Variables.ResolveText` | crates/postly-core/src/variables.rs:99-146 | the entry point does so with twelve rounds and nothing seen |
| `VariablesTheorems.EveryTextIsWritten` | crates/postly-core/src/variables.rs:148-183 | every text is a template, literals and `{{raw}}` in turn, followed by an end that opens no further expression or one that it never closes |
| `VariablesTheorems.SubstituteExpands` | crates/postly-core/src/variables.rs:148-183 | so for every text, string rewriting is one structural expansion of its template: defined names are replaced, undefined ones, blanks between braces and the end are kept as written; it visits exactly the names, and finds malformed each blank and then the trimmed text behind the open braces; the definitions are templates, other variables may have any value |
| `VariablesTheorems.ResolvingExpands` | crates/postly-core/src/variables.rs:99-146 | for every text, and for cyclic definitions too, the resolved text is the text after twelve expansions, with the end as it was written |
| `VariablesTheorems.ResolvedFullyExactlyUpToTwelve` | crates/postly-core/src/variables.rs:99-146 | for acyclic definitions the result is the recursive full expansion, undefined placeholders kept, if and only if no chain of definitions is longer than twelve |
| `VariablesTheorems.UndefinedReportedOnce` | crates/postly-core/src/variables.rs:113-124 | for every text and context no name is reported undefined twice, and only undefined names are |
| `VariablesTheorems.UndefinedReportedExactlyUpToEleven` | crates/postly-core/src/variables.rs:99-146 | an undefined name is reported if and only if it is reached by at most eleven replacements |
| `VariablesTheorems.AllUndefinedReportedUpToEleven` | crates/postly-core/src/variables.rs:99-146 | for acyclic definitions of depth at most eleven, the reported names are exactly those left in the full expansion |
| `VariablesDiagnostics.MalformedExactly` | crates/postly-core/src/variables.rs:106-112 | for every text the malformed diagnostics are, in order, those of the rounds up to the one that changes nothing: each names the blanks in the text it looks at and then what is not closed at the end |
| `VariablesDiagnostics.MalformedExactlyWhenUnclosedOrBlank` | crates/postly-core/src/variables.rs:106-112 | a malformed diagnostic with a name appears if and only if the name is the trimmed text behind braces that the text never closes, or is empty and a blank between braces is reached by at most eleven replacements |
| `VariablesDiagnostics.UnclosedTextStays` | crates/postly-core/src/variables.rs:158-163 | text with braces that are never closed is kept as written, in every context, with one malformed diagnostic for the trimmed tail |
| `VariablesDiagnostics.BlankStays` | crates/postly-core/src/variables.rs:165-169 | a blank between double braces is kept as written, with one malformed diagnostic without a name |
| `VariablesDiagnostics.CyclicExactly` | crates/postly-core/src/variables.rs:125-135 | a name is reported as cyclic if and only if one of the rounds that run comes to an occurrence of it that is not the first one, and makes a text that holds it between double braces |
| `VariablesDiagnostics.SelfReferenceIsNotReported` | crates/postly-core/src/variables.rs:125-141 | a name that is defined as itself is resolved without any diagnostic |
| `VariablesDiagnostics.MutualReferenceIsNotReported` | crates/postly-core/src/variables.rs:125-141 | nor is any pair of names that are defined as each other reported, for every number of rounds |
| `VariablesDiagnostics.RepeatedUndefinedIsReportedAsCyclic` | crates/postly-core/src/variables.rs:125-135 | every undefined name that is written twice is reported as undefined and as cyclic |
| `VariablesTheorems.LongChainsAreNotResolved` | crates/postly-core/src/variables.rs:99-146 | a chain of any number of definitions, each inserting the next name, is resolved fully if and only if there are at most twelve |
| `VariablesTheorems.EndOfLongChainIsNotReported` | crates/postly-core/src/variables.rs:99-146 | the undefined name at its end is reported if and only if there are at most eleven, so a chain of twelve is resolved fully with an unreported undefined name |
| `ShellWords.SplitWords` | crates/postly-core/src/curl.rs:492-531 | the character loop computes the specified word splitting, and reports an open quote |
| `ShellWords.SplittingUndoesQuoting` | crates/postly-core/src/curl.rs:257-259 | splitting a line of quoted and safe bare words gives back exactly the non-empty words, for all values |
| `ShellLines.LinesAreSplit` | crates/postly-core/src/curl.rs:492-531 | a line is split at the white space outside quotations: quotes are dropped, a backslash stands for the character after it except between single quotes, a last one for itself, empty words are lost, and an open quotation is an error |
| `ShellLines.EveryTextIsALine` | crates/postly-core/src/curl.rs:492-531 | every text is such a line |
| `Curl.PushOptions` | crates/postly-core/src/curl.rs:70-83 | the loop appends one option per value, in order |
| `Curl.PushBody` | crates/postly-core/src/curl.rs:154-212 | the body branch appends the arguments of the body |
| `Curl.PushAuth` | crates/postly-core/src/curl.rs:85-152 | the authentication branch appends its arguments, extends the URL for a query key, and collects its warnings |
| `Curl.ExportCurlCommand` | crates/postly-core/src/curl.rs:56-218 | the exported text joins the quoted arguments of the request, with its warnings |
| `CurlExports.CommandSays` | crates/postly-core/src/curl.rs:56-256 | for every request, the words of the exported command: method; URL with the query and the key behind a `?`, or `&` when there is one; an option for each enabled header, cookie, field and part, in order, parts as `name=value` or `name=@path;type=type`; a content type when the body asks for one and no enabled header gives it; authentication; body; and nothing else |
| `CurlExports.WarnsExactlyOf` | crates/postly-core/src/curl.rs:58-152 | there is a warning exactly for a gRPC request, for a key in the query, and for each authentication that needs a token or a signature first |
| `CurlImport.ParseCurlCommand` | crates/postly-core/src/curl.rs:261-453 | the option loop computes the specified parse, or its first error |
| `CurlCommands.EveryCommandIsSpelled` | crates/postly-core/src/curl.rs:277-402 | every list of words is a list of items, each in one of its spellings, and an ending: nothing, `--`, an option without its value, or an unknown option |
| `CurlCommands.TakesItem` | crates/postly-core/src/curl.rs:277-402 | each spelling of an item, short, long, with its value behind it or behind an equals sign, is read with the same effect, or refused with the same error |
| `CurlCommands.ImportsWhatItSays` | crates/postly-core/src/curl.rs:261-453 | for every list of words: the first bad header or user, the option without value, the unknown option or the missing URL is the error; else the request has the last method given, or POST with data or `-G` and GET without, the last `--url`, the word behind `--` or the first plain word, all headers in order with agent, referer and cookie, the last user as Basic or Digest, the data joined by `&` as body, or in the query of a GET under `-G`, and a warning for each item that asks for one |
| `CurlCommands.OnlyCurlIsRead` | crates/postly-core/src/curl.rs:262-265 | words that do not start with `curl` are refused |
| `CurlCommands.UrlAloneIsFetched` | crates/postly-core/src/curl.rs:409-418 | `curl url` is a GET without headers, body and warnings, for every URL |
| `CurlCommands.DataIsPosted` | crates/postly-core/src/curl.rs:409-418 | with data and no method it is a POST whose body is the data joined by `&` |
| `CurlCommands.GetPutsDataIntoTheQuery` | crates/postly-core/src/curl.rs:425-435 | under `-G` the data goes into the query of a GET without a body, whatever method is given |
| `CurlCommands.GetWithoutDataIsPosted` | crates/postly-core/src/curl.rs:410-418 | under `-G` without data every URL is imported as a POST |
| `CurlCommands.UrlOptionNeedsEqualsSign` | crates/postly-core/src/curl.rs:328-332 | `--url` with the URL behind an equals sign is read, as a word of its own it is refused |
| `CurlCommands.ContinuedLineIsMisread` | crates/postly-core/src/curl.rs:492-531 | a backslash before a line feed becomes a word of its own: every URL on the next line is ignored, and the line feed is imported as the URL |
| `CurlTheorems.ParsingGivesNormalForm` | crates/postly-core/src/curl.rs:261-453 | parsing any exportable request's command gives the explicit normal form: headers trimmed and cut at the first colon of their names, then the content type the body asks for, the token or key, and the last enabled cookie as headers; query and query key as URL text; each kind of body as what its text is read as |
| `CurlTheorems.ParsesExactlyWhenExportable` | crates/postly-core/src/curl.rs:261-453 | an addressed request's command can be read back if and only if no enabled header name and no key sent as a header is blank before its first colon, and its raw body is not empty |
| `CurlTheorems.SecondRoundTripIsIdentity` | crates/postly-core/src/curl.rs:56-218 | a normal form is exportable, and is its own normal form up to the identifier if and only if the last enabled cookie line has no white space around it |
| `CurlTheorems.CookieLosesItsSpace` | crates/postly-core/src/curl.rs:421-425 | every request whose only cookie ends with a space fails that condition: the second round trip drops the space |
| `CurlTheorems.HeadersAreRead` | crates/postly-core/src/curl.rs:476-484 | the header lines of a request are read if and only if no name is blank, and then as the explicit headers of the normal form |
| `CurlTheorems.TrimmedHeadersComeBack` | crates/postly-core/src/curl.rs:70-107 | with trimmed names and values the headers come back exactly as they were: the enabled ones in order, the content type the body asks for when there was none, `Authorization: Bearer` with the token or the key with its value, and the last enabled cookie |
| `CurlTheorems.JsonComesBack` | crates/postly-core/src/curl.rs:154-212 | a JSON body without a content type of its own comes back as the same JSON body, whatever the other headers and the authentication are |
| `CurlTheorems.HeaderSurvives` | crates/postly-core/src/curl.rs:476-484 | a header with a non-blank, colon-free name comes back trimmed |
| `CurlTheorems.TakesSections` | crates/postly-core/src/curl.rs:277-402 | the option loop over all sections of an exported command, in closed form: first header error, empty raw body, or the collected variables |
| `CurlTheorems.TakesOption` | crates/postly-core/src/curl.rs:334-391 | every option that the exporter writes is read with the value after it, and with no other meaning |
| `Sse.SseParser.FeedBytes` | crates/postly-core/src/sse.rs:34-46 | draining the buffer line by line gives the specified events and leaves the specified parser |
| `Sse.SseParser.FinishStream` | crates/postly-core/src/sse.rs:48-56 | the unterminated last line is processed and the pending event dispatched |
| `Sse.SseParser.Process` | crates/postly-core/src/sse.rs:58-90 | one line updates the fields, or dispatches, as the field rules say |
| `Sse.SseParser.DispatchEvent` | crates/postly-core/src/sse.rs:92-104 | data, event name and delay are reset; an event is made only when there is data; the id stays |
| `SseTheorems.FeedTwice` | crates/postly-core/src/sse.rs:34-46 | feeding two pieces is feeding their concatenation, errors included |
| `SseTheorems.ChunksDoNotMatter` | crates/postly-core/src/sse.rs:34-46 | for every split of every stream, the pieces succeed exactly when the whole does, with the same events, fields and error; after success the buffer is what follows the last newline |
| `SseTheorems.ParsingReadsBlocks` | crates/postly-core/src/sse.rs:107-112 | parsing fails exactly when some line does not decode; otherwise the events are those of the blocks between blank lines, each described without a fold: joined data, last name, last valid delay, last valid id carried on |
| `SseTheorems.BomOnlyOnFirstLine` | crates/postly-core/src/sse.rs:63-69 | byte order marks are removed from the first line only |
| `SseReading.LinesAreRead` | crates/postly-core/src/sse.rs:37-42 | lines that end with LF or CRLF are read as they were written; what follows the last line feed is a line if it is not empty |
| `SseReading.FieldsAreRead` | crates/postly-core/src/sse.rs:75-76 | the name is what comes before the first colon, the value what follows it without one space; without a colon the value is empty |
| `SseReading.NumbersAreRead` | crates/postly-core/src/sse.rs:81-85 | the decimal form of any number, after any zeros and an optional plus sign, is read as that number if it is below 2^64, and else ignored |
| `SseReading.MarksAreRemoved` | crates/postly-core/src/sse.rs:63-68 | any number of byte order marks goes from the start of the first line, and from no other line |
| `SseReading.FeedingGivesEndedBlocks` | crates/postly-core/src/sse.rs:34-46 | feeding any bytes fails exactly when a complete line cannot be decoded, and else gives at once the events of all blocks that a blank line has ended |
| `SseStandard.EventsAsTheStandardHears` | crates/postly-core/src/sse.rs:58-104 | of a stream without lone carriage returns and second byte order marks, the parser gives exactly the events of an independent reading after sections 9.2.5 and 9.2.6 of the WHATWG HTML Living Standard, and then the one left pending; both are the same if and only if the lines after the last blank one have no data |
| `Reconnect.EveryRunIsDisciplined` | crates/postly-app/src/main.rs:3215-3340 | in every environment a run makes at most limit + 1 attempts, numbers its reconnects 1, 2, ... up to the limit, ends with exactly one terminal update, and makes each attempt with the id of the last message that had one |
| `ReconnectLog.RunIsItsAttempts` | crates/postly-app/src/main.rs:3215-3340 | the log of every run is that of its attempts, one after the other: the messages of each, the announcement of the next with its number, delay and id, and after the last one how it ended |
| `Reconnect.CutOrSame` | crates/postly-app/src/main.rs:3215-3340 | when each attempt is as it would be without the user or is cut short by him, the whole run is as it would be without him, or leaves off in the attempt that is cut short |
| `SseWorker.RunSse` | crates/postly-app/src/main.rs:3215-3340 | the SSE worker's console sees exactly such a run up to the moment it is closed, and the requests sent carry its ids |
| `SseWorker.ReadStream` | crates/postly-app/src/main.rs:3273-3317 | one open connection forwards the events of its chunks, tracks id and delay, and ends as the specification says |
| `SseWorker.ForwardChunks` | crates/postly-app/src/main.rs:3282-3306 | each chunk's events are forwarded in order; an undecodable line ends the run |
| `SseWorker.SseRunsAreDisciplined` | crates/postly-app/src/main.rs:3215-3340 | every run of the SSE worker is disciplined, whatever the network does and wherever it is cancelled |
| `SseWorker.ForwardsTheWholeStream` | crates/postly-app/src/main.rs:3273-3317 | a connection read to its end forwards exactly the events of its whole text, however it was cut |
| `SseWorker.IdIsSent` | crates/postly-app/src/main.rs:3218-3229 | the first enabled Last-Event-ID header carries the id, all other headers stay, one is added only when there was none |
| `SseReports.RequestCarries` | crates/postly-app/src/main.rs:3206-3229 | the request of an attempt carries all headers of the user in order and as they are, but for the id in the first enabled last-event-id header; `accept: text/event-stream` follows exactly when no enabled header asks for a type, and an id header exactly when there is an id and no header for it |
| `SseReports.ConnectionReports` | crates/postly-app/src/main.rs:3262-3317 | a connection reports its greeting and then, while it is read, the events of the ended blocks, at its end those of all blocks; a failed read, a cancellation and an undecodable last line end the run, each with its error; the end of the stream asks for another attempt after the last delay given, or 250 ms |
| `SseReports.FailedAttemptsReportNothing` | crates/postly-app/src/main.rs:3230-3272 | an attempt that does not connect reports nothing: a cancelled and a refused one end the run, a failed one is retried after 250 ms |
| `SseReports.UndecodableConnectionReports` | crates/postly-app/src/main.rs:3282-3306 | with a line that cannot be decoded the run ends, and the events of the blocks ended before it are reported, but for those of the same chunk |
| `SseReports.DelayIsTheLast` | crates/postly-app/src/main.rs:3281-3296 | the delay is that of the last event that has one, or 250 ms |
| `SseReports.IdIsTheLast` | crates/postly-app/src/main.rs:3292-3312 | the id is that of the last event that has one, or the one known before |
| `SseStandardReconnect.IdAsTheStandardKeeps` | crates/postly-app/src/main.rs:3292-3315 | for every connection, wherever it breaks, and every id known before it: the worker sends the id of the last event it dispatches, the half-received one too, and else the id it knew; the standard keeps the id at the last blank line; they are equal if and only if the last id in the half-received event, or in the blocks without data since the last event, is the one before it, and when there is none, unless a blank line made the standard forget an id that the worker still knows |
| `SseStandardReconnect.HalfReceivedIdIsSent` | crates/postly-app/src/main.rs:3307-3315 | every connection that ends inside a second event with an id of its own fails: the worker sends that id, and the next request skips the event; the standard keeps the id of the first one |
| `SseStandardReconnect.EarlierIdIsSentAgain` | crates/postly-app/src/main.rs:3292-3315 | every connection with an event but no id fails when an id was known before: the worker sends it again, the standard forgets it |
| `SseStandardReconnect.DelayAsTheStandardKeeps` | crates/postly-app/src/main.rs:3292-3332 | the delay kept of a connection is the last valid one in a block with data, or 250 ms, the standard's the last valid one at all, or the one it had; they are equal if and only if these two are |
| `SseStandardReconnect.PlainDelaysAreKept` | crates/postly-app/src/main.rs:3292-3332 | when delays are plain numbers of 64 bits in blocks with data, the two are equal if and only if there is one or the standard had 250 ms |
| `SseStandardReconnect.RetryWithoutDataIsLost` | crates/postly-core/src/sse.rs:92-97 | every delay in a block without data is lost, and set by the standard |
| `SseStandardReconnect.WorkerGoesOnWith` | crates/postly-app/src/main.rs:3273-3332 | these are the id and the delay that the worker goes on with after a connection of any chunks that it read to its end |
| `SseUndecodable.ForwardedAndLost` | crates/postly-core/src/sse.rs:34-46 | of the events before the first undecodable line exactly those of the same chunk are lost, the others are forwarded in order, for every way the stream is cut |
| `SseUndecodable.CuttingMattersExactly` | crates/postly-core/src/sse.rs:34-46 | two ways to cut a stream forward the same events if and only if they lose equally many |
| `SseUndecodable.JoiningLosesMore` | crates/postly-core/src/sse.rs:34-46 | joining an undecodable chunk to the one before it loses the events of that one, too |
| `SseUndecodable.AnEventIsLost` | crates/postly-core/src/sse.rs:34-46 | a stream of five bytes that forwards one event in two chunks and none in one |
| `SseUndecodable.WorkerForwardsAllButLost` | crates/postly-app/src/main.rs:3273-3306 | so a connection that ends by an undecodable line has forwarded its greeting and all events but the lost ones |
| `SseCancellation.CancelCutsTheRun` | crates/postly-app/src/main.rs:3215-3340 | with one token over all the select points of a run, the run is the run without it, or leaves off with the cancellation error in the attempt under way; the latter if and only if the token wins a select that this attempt would reach; no select of an earlier attempt was won by it |
| `SseCancellation.CancelEndsTheRun` | crates/postly-app/src/main.rs:3230-3332 | a token set during any select that the run would reach, connecting, reading or waiting, and winning it, ends the run with the cancellation error, and no attempt starts after that select |
| `SseCancellation.LaterAttemptsNeedLuck` | crates/postly-app/src/main.rs:3230-3332 | after the token was set an attempt starts only if every select since then was won by another ready branch |
| `SseCancellation.AtMostOneMoreAttempt` | crates/postly-app/src/main.rs:3318-3332 | when servers ask for some delay, the only attempt that can start after the token was set is the one right after a wait that was under way and whose timer won |
| `WebSocketWorker.RunSession` | crates/postly-app/src/main.rs:3464-3546 | the inner loop reports the specified messages and ends the session as specified |
| `WebSocketWorker.RunWebSocket` | crates/postly-app/src/main.rs:3397-3573 | in every environment of network, queued commands and token, the worker's console sees exactly the run of the reconnect loop up to the moment it is closed, each attempt starting at the select and with the commands where the last one left off |
| `WebSocketMessages.SessionIsItsTrace` | crates/postly-app/src/main.rs:3464-3546 | a session takes at each select the cancellation, a waiting command or the next frame, reports what these say, and ends with the first that ends it |
| `WebSocketMessages.AttemptReportsItsTrace` | crates/postly-app/src/main.rs:3397-3573 | in every environment: nothing is reported unless the connection opens; then comes the greeting, and after it each frame taken, with kind and data, a closing one included and a ping whose reply failed excluded, and each text sent; how an attempt ends is said by its last event |
| `WebSocketMessages.FramesAndTextsInOrder` | crates/postly-app/src/main.rs:3470-3546 | the messages received are those of the frames that came until the session ended, in order without a gap, and those sent the texts of the commands queued next, in order |
| `WebSocketWorker.WebSocketRunsAreDisciplined` | crates/postly-app/src/main.rs:3397-3573 | every run of the WebSocket worker is disciplined: whatever the network does, whenever commands are queued and the token is set |
| `WebSocketClosing.UserCutsTheRun` | crates/postly-app/src/main.rs:3397-3573 | in every environment the run is the run without closing and cancelling, or leaves off in the attempt that the user ends: with a plain close when he ends a session, else with the cancellation error; in no other attempt did he end anything |
| `WebSocketClosing.NothingFollowsExactlyWhenTaken` | crates/postly-app/src/main.rs:3522-3611 | after a close is queued neither another attempt nor another wait follows if and only if the attempt under way was the last one anyway or is a session that takes the close |
| `WebSocketClosing.NothingFollowsExactlyBeforeTheWait` | crates/postly-app/src/main.rs:3522-3611 | when waiting commands are taken at once, that is so if and only if the attempt under way was the last one anyway, or its connection opens and the close is queued before the wait after the session |
| `WebSocketClosing.AnnouncedReconnectsAreMade` | crates/postly-app/src/main.rs:3567-3573 | when nothing is cancelled every announced reconnect is made, so attempts and announcements follow a close together |
| `WebSocketClosing.CloseIsNotHeardOutsideSessions` | crates/postly-app/src/main.rs:3399-3454 | while no connection opens, closing does nothing: the worker announces and makes every attempt up to the limit, and ends with an error |
| `WebSocketClosing.CloseWhileWaitingIsNotHeard` | crates/postly-app/src/main.rs:3428-3433 | the run in which the first connection fails and the user closes during the wait: all the other attempts are made |
| `WebSocketClosing.CancelEndsTheRun` | crates/postly-app/src/main.rs:3399-3572 | a cancellation that wins any select of an attempt that is made, connecting, in the session or waiting, ends the run there |
| `WebSocketClosing.LaterAttemptsNeedLuck` | crates/postly-app/src/main.rs:3399-3572 | after the token was set an attempt begins only if every select since then was won by another ready branch |
| `WebSocketClosing.AtMostOneMoreAttempt` | crates/postly-app/src/main.rs:3567-3572 | since the worker always waits some time, a cancellation that loses its select lets at most one attempt begin, right after the wait under way |
| `Tabs.PostlyTabs.SyncActiveTab` | crates/postly-app/src/main.rs:1372-1391 | the working copy is written to the active tab, its collection changed only when its file is listed |
| `Tabs.PostlyTabs.InstallTab` | crates/postly-app/src/main.rs:1403-1422 | the tab at the index becomes active and is loaded into the working copy |
| `Tabs.PostlyTabs.NewTab` | crates/postly-app/src/main.rs:1660-1681 | the working copy is saved, then a new dirty draft is appended and shown |
| `Tabs.PostlyTabs.SwitchToTab` | crates/postly-app/src/main.rs:1526-1541 | nothing for the active or a missing tab; otherwise save and show |
| `Tabs.PostlyTabs.CloseTab` | crates/postly-app/src/main.rs:1543-1566 | dirty tabs stay; a clean one goes, the active index is adjusted, and an empty list gets a new draft |
| `Tabs.PostlyTabs.CloseOtherTabs` | crates/postly-app/src/main.rs:1568-1585 | nothing when another tab is dirty; otherwise only the active tab stays |
| `Tabs.PostlyTabs.MoveActiveTab` | crates/postly-app/src/main.rs:1587-1597 | the active tab changes places with its neighbour, within bounds |
| `Tabs.PostlyTabs.SelectRequest` | crates/postly-app/src/main.rs:1628-1658 | the tab of a listed request is shown, opened first when there is none |
| `Tabs.PostlyTabs.DiscardRecovery` | crates/postly-app/src/main.rs:1213-1242 | recovered tabs are removed and the active index is mapped by the number of recovered tabs before it |
| `Tabs.PostlyTabs.PersistRecovery` | crates/postly-app/src/main.rs:1140-1194 | the drafts of the dirty tabs, with the position of the active one among them |
| `Tabs.PostlyTabs.RestoreRecovery` | crates/postly-app/src/main.rs:1098-1138 | the drafts of the snapshot are appended and one of them is shown |
| `TabsTheorems.KeepsUnsaved` | crates/postly-app/src/main.rs:1526-1681 | no single operation drops or changes a dirty, not recovered tab: as a multiset of whole tabs they are all still there |
| `TabsTheorems.RunsKeepUnsaved` | crates/postly-app/src/main.rs:1213-1242 | over every sequence of operations and edits, with the write-back between any two, the active index stays in range and no dirty, not recovered tab is ever dropped |
| `TabsTheorems.RunsKeepContent` | crates/postly-app/src/main.rs:1213-1242 | over every such sequence a dirty, not recovered tab that the user does not edit keeps its request up to what the editors make of it, and exactly when they leave it as it is |
| `TabsTheorems.StaysInRange` | crates/postly-app/src/main.rs:1526-1597 | each operation keeps the active index in range |
| `TabsShown.SavingWritesBack` | crates/postly-app/src/main.rs:1372-1391 | saving writes request, path, marks and collection of the working copy to the active tab, and changes nothing else |
| `TabsShown.SwitchShowsTheTab` | crates/postly-app/src/main.rs:1526-1541 | switching to another tab in range saves, makes that index active and shows the request, path and marks of that tab and the files of its collection; else nothing happens |
| `TabsShown.SelectShowsThePath` | crates/postly-app/src/main.rs:1628-1658 | opening a request shows the first tab of its path, after saving; a clean tab is appended if and only if no tab has the path |
| `TabsShown.NewShowsADraft` | crates/postly-app/src/main.rs:1660-1681 | a new tab is a dirty draft of the selected collection behind the others, and is shown |
| `TabsShown.CloseShowsANeighbour` | crates/postly-app/src/main.rs:1543-1566 | closing a clean tab removes it alone; shown is the active tab, or the one that takes its place, the last one, or a fresh draft |
| `TabsShown.CloseOthersLeavesOne` | crates/postly-app/src/main.rs:1568-1585 | closing the others leaves the active tab alone, unless another one is dirty |
| `TabsShown.MoveExchangesTwo` | crates/postly-app/src/main.rs:1587-1597 | moving exchanges the active tab with the neighbour on the side asked for |
| `TabsShown.DiscardShowsASurvivor` | crates/postly-app/src/main.rs:1213-1242 | after discarding, a surviving tab or a fresh draft is shown |
| `TabsShown.RestoreShowsADraft` | crates/postly-app/src/main.rs:1098-1138 | restoring shows one of the drafts that it appends, as recovered work |
| `TabsTheorems.ClosingAnotherKeepsActive` | crates/postly-app/src/main.rs:1543-1566 | closing another tab keeps the same tab active and shows it, removes just that tab, or does nothing when it is dirty |
| `TabsTheorems.ClosingOthersKeepsActive` | crates/postly-app/src/main.rs:1568-1585 | closing the others keeps the active tab, and happens exactly when no other tab is dirty |
| `TabsTheorems.MovingKeepsActive` | crates/postly-app/src/main.rs:1587-1597 | moving keeps the same tab active, exchanges two tabs, and is undone by moving back |
| `TabsTheorems.CloseKeepsWorkExactlyWhenMarked` | crates/postly-app/src/main.rs:1543-1566 | before the frame's write-back, closing a clean tab keeps the content of all unsaved work if and only if the working copy has no changes, or its tab is marked and holds them already |
| `TabsTheorems.CloseDropsAChange` | crates/postly-app/src/main.rs:1543-1566 | every clean tab that was edited in the same frame fails: closing it loses the edit |
| `TabsTheorems.DiscardKeepsWorkExactlyWhenMarked` | crates/postly-app/src/main.rs:1213-1242 | discarding the recovered drafts before the write-back keeps the content of all unsaved work if and only if the same condition holds |
| `TabsTheorems.DiscardDropsAChange` | crates/postly-app/src/main.rs:1213-1242 | every lone marked draft with a changed working copy fails: closing it is refused, discarding loses the change |
| `TabsTheorems.RecoveryBringsBackDirtyTabs` | crates/postly-app/src/main.rs:1098-1194 | for any two workspaces, the crashed and the restarted one: persisting and restoring appends exactly the dirty tabs' requests, in order, dirty and recovered, and shows the draft that was active when it was dirty; each is in the collection that is looked up by the id of the one it was in |
| `TabsTheorems.CollectionComesBack` | crates/postly-app/src/main.rs:1102-1107 | that collection has the same id, in whatever order collections are listed now; only one that is gone is replaced by the first |
| `TabsTheorems.DiscardKeepsActiveSurvivor` | crates/postly-app/src/main.rs:1213-1242 | discarding removes exactly the recovered tabs; a surviving active tab stays active, otherwise the tab at its rank among the survivors, or the last, is shown |
| `TabsTheorems.DiscardUndoesRestore` | crates/postly-app/src/main.rs:1098-1242 | discarding what was just restored gives back the tabs that were there |
| `WorkerSlots.PostlyWorkers.CancelActive` | crates/postly-app/src/main.rs:2285-2310 | every token held in a slot is cancelled, and nothing else changes |
| `WorkerSlots.PostlyWorkers.ClearResponse` | crates/postly-app/src/main.rs:1988-2029 | the held tokens are cancelled and every slot is emptied |
| `WorkerSlots.PostlyWorkers.SendCurrent` | crates/postly-app/src/main.rs:2883-3066 | nothing while a worker is pending; otherwise clear, then hold the new worker, its token and its request, as HTTP or gRPC |
| `WorkerSlots.PostlyWorkers.StartGraphqlSchema` | crates/postly-app/src/main.rs:3120-3178 | the same for the introspection request made from the edited one |
| `WorkerSlots.PostlyWorkers.StartSseCurrent` | crates/postly-app/src/main.rs:3180-3353 | nothing while a worker is pending; otherwise clear, then hold the new worker and token |
| `WorkerSlots.PostlyWorkers.StartWebSocketCurrent` | crates/postly-app/src/main.rs:3355-3588 | the same, with a command channel |
| `WorkerSlots.PostlyWorkers.StartScriptRun` | crates/postly-app/src/main.rs:3068-3118 | nothing while a worker is pending; otherwise hold the new worker and token without clearing the response |
| `WorkerSlots.PostlyWorkers.PollHttpPending` | crates/postly-app/src/main.rs:3724-3904 | an answer empties the slot; it is recorded unless it is a schema, or a failure after cancelling; script reports and the error are shown by the same rule |
| `WorkerSlots.PostlyWorkers.PollSsePending` | crates/postly-app/src/main.rs:3906-4051 | the updates in the channel are taken up to the terminal one and shown; the slot and token are freed together exactly when the worker ended or is gone, and its failure is shown unless it was cancelled |
| `WorkerSlots.PostlyWorkers.PollWebSocketPending` | crates/postly-app/src/main.rs:4053-4196 | the same for the WebSocket worker, with its command channel |
| `WorkerSlots.PostlyWorkers.PollScriptPending` | crates/postly-app/src/main.rs:3617-3679 | an answer frees slot and token together; a report replaces an error, an error a report, and a cancelled script leaves neither |
| `StreamConsole.TakeUpdates` | crates/postly-app/src/main.rs:3906-4045 | the loop over the channel computes the specified poll: what it leaves on the console, how the worker ended, and how many updates it took |
| `StreamConsole.Push` | crates/postly-app/src/main.rs:3958-3964 | pushing to the back and popping from the front keeps the newest 500 items |
| `StreamConsoleTheorems.PollsDoNotMatter` | crates/postly-app/src/main.rs:3906-4051 | polling part by part is polling once for all parts |
| `StreamConsoleTheorems.EveryRunIsShown` | crates/postly-app/src/main.rs:3906-4051 | whenever the application polls, it takes every run of a worker to its terminal update and not further, and keeps the newest 500 of the messages of all its connections |
| `PollsShown.PollShows` | crates/postly-app/src/main.rs:3906-4051 | a poll takes the updates up to the first terminal one, or all; it keeps the newest 500 messages that are no greeting, in order; a connection is open as the last greeting or reconnect says, and closed once the worker ended or is gone |
| `WorkerSlotsTheorems.ReachableStatesKeepInv` | crates/postly-app/src/main.rs:2883-3178 | in every state that any sequence of operations reaches from idle, at most one worker is pending, each with exactly its own token; the pending request is the one its worker was given; history pairs each answer with the request of the worker that gave it, once; no error is shown while a worker is pending that may bring one |
| `WorkerSlotsTheorems.StartingCancelsNothing` | crates/postly-app/src/main.rs:3003-3009 | starting an operation cancels no token and drops no worker; it is ignored while one is pending |
| `WorkerSlotsTheorems.ClearingCancelsTheRunning` | crates/postly-app/src/main.rs:1988-2029 | clearing cancels exactly the running workers |
| `WorkerSlotsTheorems.DroppedIsNeverRecorded` | crates/postly-app/src/main.rs:3724-3746 | a worker dropped before it answered is never recorded, whatever happens later |
| `WorkerSlotsTheorems.CancelledFailuresAreNotRecorded` | crates/postly-app/src/main.rs:3734-3904 | after cancelling, a failure is not recorded but a response that arrives all the same is |
| `WorkerSlotsTheorems.CancelledFailuresAreNotShown` | crates/postly-app/src/main.rs:3734-4051 | after cancelling, no answer and no end of a stream leaves an error on display |
| `WorkersShown.AnswerIsRecordedAndShown` | crates/postly-app/src/main.rs:3724-3904 | an answer frees the slot and is recorded with the request of its worker: a response always, a failure exactly when it was not cancelled, an introspection never; a failure is shown exactly when it was not cancelled and is no introspection's; a response takes the error away and brings the report of its last script |
| `WorkersShown.SsePollShows` | crates/postly-app/src/main.rs:3906-4051 | a poll frees the slot exactly when the last update was taken or the worker is gone, and then shows the failure exactly when it was not cancelled; all other slots stay |
| `WorkersShown.WebSocketPollShows` | crates/postly-app/src/main.rs:4053-4196 | the same for the WebSocket worker, with its command channel |
| `WorkersShown.ScriptAnswerIsShown` | crates/postly-app/src/main.rs:3617-3679 | a script's report or error is shown and replaces the other, and a cancelled script leaves neither |
| `WorkersShown.StartedWorkerHoldsItsSlot` | crates/postly-app/src/main.rs:2883-3586 | starting an operation on an idle application gives the new worker its slot with its own token and remembers its request; every operation but a script clears what is shown |
| `WorkersShown.ClearingForgetsAll` | crates/postly-app/src/main.rs:1988-2029 | clearing leaves nothing on display and no slot taken |
| `WorkerSlotsTheorems.SseRunIsShown` | crates/postly-app/src/main.rs:3180-4051 | an SSE worker holds its slot for exactly its whole run, however it is polled: its last update frees the slot; the newest messages are shown, and its failure unless it was cancelled |
| `WorkerSlotsTheorems.WebSocketRunIsShown` | crates/postly-app/src/main.rs:3355-4196 | the same for every run of a WebSocket worker |
| `HtmlPreview.ResponsePreviewText` | crates/postly-app/src/main.rs:8414-8498 | an error for other languages and for more than 2 MiB; otherwise the specified preview |
| `HtmlPreview.ScanAll` | crates/postly-app/src/main.rs:8425-8486 | the cursor loop terminates and outputs exactly what the scanned pieces emit, in order |
| `HtmlPreview.Next` | crates/postly-app/src/main.rs:8429-8486 | each turn of the scanner takes a non-empty piece from the front of what is left |
| `HtmlPreviewTheorems.PiecesTileTheSource` | crates/postly-app/src/main.rs:8429-8486 | the pieces are non-empty and together are the source |
| `HtmlPreviewTheorems.NothingSuppressedIsShown` | crates/postly-app/src/main.rs:8430-8447 | between an opening script, style, noscript or template tag and the next piece that contributes anything there is the closing tag of the same name |
| `HtmlPreviewTheorems.PiecesAreExplained` | crates/postly-app/src/main.rs:8414-8516 | suppression is lifted only by a closing tag of that name, and no complete tag is ever shown |
| `HtmlPreviewTheorems.MarkupAddsOnlyMarkers` | crates/postly-app/src/main.rs:8473-8485 | tags and comments append nothing, a line break, a bullet, or both |
| `HtmlPreviewTheorems.OutputComesFromShownText` | crates/postly-app/src/main.rs:8414-8498 | every character of the output is a marker or comes from shown text |
| `HtmlPreviewTheorems.SuppressedElementIsSkipped` | crates/postly-app/src/main.rs:8430-8447 | the output behind a suppressed element goes on after the first `>`-ended segment that reads as its closing tag, or nowhere |
| `HtmlPreviewTheorems.ElementEndsExactly` | crates/postly-app/src/main.rs:8430-8447 | behind content without a closing tag of the name, a closing tag ends the element if and only if the text after the content's last `>` has no `<` or reads as that closing tag itself; otherwise it is swallowed |
| `HtmlPreviewTheorems.SuppressedElementEndsExactly` | crates/postly-app/src/main.rs:8430-8447 | the same for the preview: the scan goes on right behind the closing tag, unsuppressed or still suppressed by that condition |
| `HtmlPreviewTheorems.SuppressedElementLeavesNoTrace` | crates/postly-app/src/main.rs:8430-8447 | an element whose content has no `<` changes nothing in the output |
| `HtmlPreviewTheorems.CommentLeavesNoTrace` | crates/postly-app/src/main.rs:8448-8455 | the output is that of the source without the comment |
| `HtmlPreviewTheorems.ComparisonSwallowsClosingTag` | crates/postly-app/src/main.rs:8430-8447 | after `<` and a word inside a suppressed element the closing tag is not seen, for all such texts |
| `HtmlPreviewTheorems.TagNameIsRead` | crates/postly-app/src/main.rs:8500-8516 | a lower-case name followed by anything that ends it is read as that name, opening and closing |
| `HtmlPreviewTheorems.PreviewIsCleanLines` | crates/postly-app/src/main.rs:8487-8497 | the preview is a non-empty list of trimmed, non-empty lines |
| `HtmlLines.PreviewHasLines` | crates/postly-app/src/main.rs:8425-8497 | the preview of every document of words, tags, comments and suppressed elements is the list of its lines: `br`, `li` and the block tags start a line, an item with a bullet, other tags do not, comments and suppressed elements leave no trace, and a last `<` without `>` is shown |
| `HtmlLines.TagSeparates` | crates/postly-app/src/main.rs:8473-8485 | text before and after a tag is on two lines if the tag is one of these, and on one if not |
| `HtmlLines.TagsAreRead` | crates/postly-app/src/main.rs:8500-8516 | white space before the name and around the slash, what follows the name, and the case of the letters do not matter |
| `HtmlLines.OtherTagsAreDropped` | crates/postly-app/src/main.rs:8500-8516 | a tag whose name does not start with a letter or a digit is none |
| `HtmlEntities.DecodeEntities` | crates/postly-app/src/main.rs:8558-8602 | the loop computes the specified decoding |
| `HtmlEntities.EscapedTextComesBack` | crates/postly-app/src/main.rs:8558-8602 | every text that is written with entities for the five special characters is shown as it was |
| `HtmlEntities.NumbersAreDecoded` | crates/postly-app/src/main.rs:8578-8592 | a decimal or hexadecimal number stands for the character with that number, and for nothing if there is none |
| `HtmlEntities.NothingWithoutSemicolon` | crates/postly-app/src/main.rs:8566-8570 | text without a semicolon stays as it is |
| `HtmlEntities.AmpersandHidesTheNextEntity` | crates/postly-app/src/main.rs:8563-8598 | behind a lone `&` the next entity is not decoded |
| `Graphql.ValidateQuery` | crates/postly-core/src/graphql.rs:79-118 | accepts exactly the non-blank queries whose strings are closed and whose braces outside strings are a non-empty word of the grammar of balanced braces; otherwise the right error |
| `Graphql.CountingIsBalance` | crates/postly-core/src/graphql.rs:83-117 | the depth counter accepts exactly the words of that grammar |
| `Graphql.InsideStep` | crates/postly-core/src/graphql.rs:88-97 | the flags for strings and escapes follow the definition by string ends |
| `Graphql.DisplayedExactlyWhenDescribed` | crates/postly-core/src/graphql.rs:503-532 | an introspection answer is displayed if and only if it describes a type, and then as that type is written |
| `Graphql.ReadingInvertsWriting` | crates/postly-core/src/graphql.rs:508-519 | a written type reads back as itself if and only if its name does not itself look wrapped |
| `Graphql.WritingIsInjective` | crates/postly-core/src/graphql.rs:508-519 | types whose names have no brackets or exclamation marks are written alike only when they are equal |
| `Graphql.WritingInvertsReading` | crates/postly-core/src/graphql.rs:508-519 | every text is the writing of the type it reads as |
| `FolderTrie.BuildTrie` | crates/postly-core/src/export.rs:49-52 | the loop builds the trie of all requests in turn |
| `FolderTrie.NodeItems` | crates/postly-core/src/export.rs:160-172 | the two loops with the recursion between them give the specified list |
| `FolderTrieTheorems.ExportKeepsEveryRequest` | crates/postly-core/src/export.rs:144-172 | for every path, the requests found under exactly these folders of the exported list are those that ask for it, as often and in the order given |
| `FolderTrieTheorems.ExportIsWellOrdered` | crates/postly-core/src/export.rs:160-172 | on every level folders come before requests, are strictly sorted by name, and are not empty |
| `FolderTrieTheorems.SegmentsAreClean` | crates/postly-core/src/export.rs:147-152 | folder names are trimmed, non-empty and without separators, and a path of such names is kept as it is |
| `Editors.RequestEditors.LoadRequestEditors` | crates/postly-app/src/main.rs:1740-1986 | all editors are set as specified, the request is not touched |
| `Editors.RequestEditors.EditedRequest` | crates/postly-app/src/main.rs:2583-2749 | the request made of the editors, or the first error, is the specified one |
| `Editors.RequestEditors.BodyFromEditors` | crates/postly-app/src/main.rs:2589-2637 | the body for each kind, with the errors of its texts |
| `Editors.RequestEditors.AssertionsFromEditors` | crates/postly-app/src/main.rs:2638-2660 | the loop replaces the values of the assertions in order, stopping at the first text that does not fit |
| `EditorsTheorems.EditingGivesNormalForm` | crates/postly-app/src/main.rs:2583-2749 | editing a loaded request gives a normal form that depends on the request alone, whatever the editors held before |
| `EditorsTheorems.NormalIsStable` | crates/postly-app/src/main.rs:2583-2749 | normalising twice is normalising once |
| `EditorsTheorems.EditingTwiceIsEditingOnce` | crates/postly-app/src/main.rs:1740-1986 | for all bodies, authentications, assertions and gRPC settings: if editing succeeds once it succeeds again with the same request |
| `EditorsTheorems.EditingKeepsTheRest` | crates/postly-app/src/main.rs:2583-2588 | headers, query, cookies, examples, identity, address and the number of assertions are kept |
| `EditorsShown.TypedQueryIsTheBody` | crates/postly-app/src/main.rs:2602-2624 | a GraphQL body is taken if and only if its query is valid and its variables are an object or `null`, and then as typed; else the first thing that is wrong is the error |
| `EditorsShown.TypedValuesAreTaken` | crates/postly-app/src/main.rs:2638-2660 | assertions are taken if and only if all typed values fit, each with its own value; else the first one that does not fit gives the error |
| `EditorsShown.MediaTypeIsRead` | crates/postly-app/src/main.rs:1780-1794 | the parameters of a content type and white space around it do not matter for the choice of its editor |
| `EditorsShown.EditorsOfTypes` | crates/postly-app/src/main.rs:1780-1794 | five types, in capital or small letters, have an editor of their own, and all others share one |
| `EditorsTheorems.UnchangedExactlyWhenPlain` | crates/postly-app/src/main.rs:1740-1986 | loading and taking back changes nothing if and only if the request satisfies a condition that can be read off it |
| `TabsEditing.EditorsMakeAWorld` | crates/postly-app/src/main.rs:1372-1422 | the editors are what the tabs assume of them: showing a request keeps its identity, showing it twice is showing it once, it is what loading and taking back gives, and it changes nothing exactly for the requests that the editors leave alone |

## Left out

- Variables.Diagnose: message texts are left out. Values that leave an expression open, so that its text goes on in the text around it, are inserted as the code does, but no closed form is given for them.
- HtmlPreview.ResponsePreviewText: the language of the response is a parameter; choosing it is a list of prefixes.
- FolderTrie.BuildTrie: the nested map that the code mutates in place through one walking reference is modelled on values, with a recursive insertion; aliasing is not captured. How a single request is written, and the error that can stop the list, are not part of this model.
- Graphql.ValidateQuery: the depth is an unbounded integer; more than 2,147,483,647 nested braces would overflow the code's 32-bit counter.
- WorkerSlots.PostlyWorkers.SendCurrent: errors found before a worker is made (invalid editors, no environment, bad TLS settings) leave all slots as they are and are not steps of the model. The close command that cancelling also sends to a WebSocket worker, status and log lines, and responses themselves, are left out. Of what is displayed the model has the stream consoles, the response error and the script report.
- StreamConsole.TakeUpdates: the details of a greeting (status text, content type, protocol, URL) are those of the worker's greeting; the time at which an item was received is left out.
- TabsEditing.EditorsMakeAWorld: a request that the editors refuse cannot be written back; it is left as it is, see SyncActiveTab.
- Tabs.PostlyTabs.SyncActiveTab: states in which the editors hold invalid text, so that saving the working copy fails, are left out; so are status texts, the saved tab list and the clearing of the response.
- Tabs.PostlyTabs.PersistRecovery: the recovery file itself, its version and its time are left out; a snapshot is a value.
- Tabs.PostlyTabs.RestoreRecovery: the same holds as for PersistRecovery.
- Deleting the current request and importing a cURL command into the current tab are not tab operations of the model: both let the working copy overwrite a slot.
- SseWorker.RunSse: time is left out beyond the order of the selects; what is assumed of timers, where it is needed, is `TimersTakeTime`. Setting up the connection (URLs, TLS, proxies) comes before the loop and is not modelled. The details of the greeting are reduced to its status.
- WebSocketWorker.RunWebSocket: the same holds as for RunSse.
- CurlTheorems.SecondRoundTripIsIdentity: only the last enabled cookie survives the first import; multipart forms and files come back as text or warnings, which the normal form says.
- Editors.RequestEditors.LoadRequestEditors: editors that are always set together are kept in one record each; the presets of the WebSocket console and the chosen editor tab are left out.
- Sending requests, gRPC, TLS, keyrings, file storage, drawing, code generation, documentation, history filters, cookie printing, secret references and the benchmark tools would add only plumbing or easy members.
- `parse_schema`, the other importers and exporters, and `parse_response` are mappings without a property beyond their bodies.
