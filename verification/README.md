# goscrapling: models and proofs

This project models the parts of goscrapling whose behaviour is hardest to see from the code, and proves what
they are for. The proofs are in Dafny; `dafny verify dfyconfig.toml` checks all of them.

**Crawl runtime and scheduler** (`SchedulerSpec`, `Scheduler`, `CrawlSpec`, `CrawlFollow`, `CrawlCoverage`,
`CrawlInvariant`, `CrawlSafety`, `CrawlPause`, `CrawlPotential`, `CrawlBounds`, `CrawlRuntime`). The event loop
is a transition system with adversarial outcomes: any outstanding request may end with anything that processing
it can produce, and the context may be cancelled before the loop head, while the loop waits in its select, and
between the two places where a failed result is compared with the context's error. A trace may join any number
of runs by pause and restore. `Scheduler.Scheduler` and `CrawlRuntime.CrawlRuntime` are the objects of the
program, with its fields; the scheduler keeps a binary heap and refines a list sorted by priority and arrival,
and the runtime's methods refine the transition system. The history of a run is kept apart from the runtime's
own tables: a request is finished by a response, a robots refusal or a counted failure, and cancelled by a
result that carries the context's error. Over every trace: no accepted request is duplicated, no fingerprint
finishes twice, the tables and the pause snapshot lose nothing if and only if the two reads of the context
agreed on every result, the events decide whether a cancelled run is paused with a checkpoint, and with filtered
requests the number of fetches and of turns is bounded from any loop head on. Nothing asked for is dropped
either: what a result asks to follow or to retry is queued exactly as far as it is new, and a crawl that ends
without an error has visited exactly the fingerprints that its start requests and its results asked for.

**CSS front end and translation to XPath** (`CssScan`, `CssFront`, `CssSimple`, `CssLang`, `CssMeaning`,
`CssCompound`, `CssToXPath`, `XPathLang`, `XPathLiteral`, `XPathEval`, `ClassTokens`, `Dom`). Both languages
have a meaning over finite element trees: selectors are read from the right by Selectors Level 3, XPaths are
parsed from their text and evaluated forwards from the document node by XPath 1.0. The main theorem is about
texts: for every selector list of the supported grammar, the XPath text that the translator emits selects the
same elements, text nodes and attribute nodes as the selector list, however its combinators are written and
wherever blanks stand: around combinators, commas, brackets, operators and the name in `::attr()`. The scanners'
rules for quotes, brackets, parentheses and escapes are said once more without them, by nested texts.

**Browser page pool and concurrent fetcher** (`PagePoolSpec`, `PagePoolSteps`, `PagePoolSafety`,
`PagePoolService`, `BrowserSession`, `ConcurrentFetch`, `ConcurrentFetchSteps`, `ConcurrentFetchSafety`). Both
are protocols of interleaved atomic steps. In the pool, changing the state under the lock and sending to or
receiving from the channel are separate steps. A ledger says what every step does to the live pages, so a page
is neither used twice nor lost, and a fetch that waits can be served by one that ends well.

**Adaptive relocation and selector generation** (`Lcs`, `Score`, `TextFields`, `ScoreMeaning`, `Relocation`,
`CssIdentifier`, `SelectorGen`, `SelectorOrder`, `SelectorText`, `SelectorReading`, `SelectorMeaning`). Scores
are exact reals; what each part of a score is, and when it is all or nothing, is said by words, names and
tokens. Generated selectors are read back as CSS and as XPath by two small parsers, whatever the tags and ids
are, and what the text selects is compared with the element it was made for.

**Robots policy and shell words** (`RobotsPattern`, `Robots`, `RobotsAgents`, `RobotsParse`, `RobotsFile`,
`ShellWords`). Every text is a robots.txt file of sections, and its groups are what the sections say.

What the model takes as given:

- A request's fingerprint is an abstract key, `None` when its URL does not parse; equal keys stand for equal
  fingerprints. The checkpoint file returns what was written.
- Strings are sequences of code points, and the Unicode tables (letters, digits, lower case) are a parameter. Where
  the program counts bytes, the UTF-8 length is written out.
- A document is a finite tree with a document node at the top. An attribute map stands for the attributes, whose
  names the HTML parser has made lower-case. Tag names are what an HTML tokenizer takes for one: a letter, and then
  anything but blanks, / and >.
- The answers of robots policy, limiter, sleep, fetch, block check, hooks and callbacks are parameters of an event.
- strconv.ParseFloat is a table from texts to durations.

Where a property is not true of the code, a lemma says exactly when it holds:

- a form feed separates classes in CSS but not in XPath: `CssToXPath.ExactIffSeparated`, `ClassTokens.FormFeedIsMissed`;
- attribute names are emitted as written: `CssMeaning.AttributeCaseMatters`;
- a `*=` inside a value is taken for the operator, and blanks and quotes at the ends of a value are lost:
  `CssCompound.QuotedEqualsIff`, `CssCompound.QuotedContainsIff`;
- a lone hyphen, a hyphen before a digit, the empty id and NUL cannot be written as a CSS identifier:
  `CssIdentifier.DecodeUndoesEscape`, `SelectorMeaning.OwnIdIsEnough`;
- generated tags are in lower case and not escaped, so an element is found again only if the tags on the way are
  lower-case and are names of the language, unlike SVG's foreignObject or `<o:p>`:
  `SelectorMeaning.SelectsItsElement`, `SelectorMeaning.OddTagIsLost`, `SelectorMeaning.OfficeDocument`;
- the topmost element gets no selector: `SelectorMeaning.TopmostHasNoSelector`;
- the index of the first element of a tag is omitted, so what lies behind its siblings of that tag may match too:
  `SelectorMeaning.SelectsItAndTwins`, `SelectorMeaning.NotAlwaysUnique`;
- a failed request whose error is the one that the context takes on between two reads
  (spiders/crawl_runtime.go:224 and 278) is deleted, not counted, and missing from the checkpoint:
  `CrawlSafety.NothingLostIffReadsAgree`, `CrawlPause.RequestLost`;
- a run whose context is cancelled writes no checkpoint when a failing item hook or an unparsable follow URL gets
  to stop it first: `CrawlPause.PausedIffRecordedFirst`, `CrawlPause.CheckpointLost`;
- a quoted dollar sign directly before a single quote is taken for the start of $'...':
  `ShellWords.SplitUndoesQuoting`, `ShellWords.QuotedDollarIsLost`;
- blanks before a pseudo-element are no descendant combinator: `CssFront.ExtractionRoundTrip`;
- a line of 65536 bytes or more ends a robots.txt: `RobotsParse.LongLineEndsFile`.

## Model

| member | source | states |
|---|---|---|
| SchedulerSpec.InsertIsStable | spiders/scheduler.go:137-142 | queueing keeps the list ordered by priority, later arrivals behind earlier ones of the same priority, and all other requests in their order |
| SchedulerSpec.SortIsStable | spiders/scheduler.go:93-105 | re-queueing a snapshot's requests in order is a stable sort by priority that keeps every request |
| SchedulerSpec.DequeueReturnsFirst | spiders/scheduler.go:60-66 | Dequeue returns a request of the highest waiting priority, the earliest of those, and removes only it |
| SchedulerSpec.CallKeepsGood | spiders/scheduler.go:29-126 | every call keeps the queue sorted and the fingerprints of queued filtered requests among the seen ones |
| SchedulerSpec.SnapshotRestore | spiders/scheduler.go:75-126 | restoring a scheduler from its own snapshot gives the same queue and the same seen fingerprints |
| SchedulerSpec.CheckpointIsInvisible | spiders/scheduler.go:29-126 | a snapshot and restore in the middle of any sequence of Enqueue, Dequeue and Len calls changes no later answer |
| Scheduler.Scheduler.Enqueue | spiders/scheduler.go:29-47 | a bad URL and a seen fingerprint leave the queue alone; otherwise the request enters the sorted list and its fingerprint is recorded unless filtering is off |
| Scheduler.Scheduler.AcceptFingerprint | spiders/scheduler.go:49-58 | a fingerprint is accepted once, and always when filtering is off, when it is not recorded |
| Scheduler.Scheduler.Dequeue | spiders/scheduler.go:60-66 | the heap's root is the head of the sorted list |
| Scheduler.Scheduler.Push | spiders/scheduler.go:146-148 | pushing onto the heap inserts into the sorted list behind equal priorities |
| Scheduler.Scheduler.Pop | spiders/scheduler.go:150-156 | popping the heap removes the first item of the sorted list |
| Scheduler.Scheduler.Snapshot | spiders/scheduler.go:75-91 | the snapshot lists the requests in dequeue order and the seen fingerprints in increasing order, each once |
| Scheduler.Scheduler.Restore | spiders/scheduler.go:93-105 | the restored queue is the snapshot's requests sorted stably, and seen holds the saved and the queued fingerprints |
| Scheduler.SiftUp | spiders/scheduler.go:137-148 | moving the last item up restores the heap order and keeps the items |
| Scheduler.SiftDown | spiders/scheduler.go:137-156 | moving the root down restores the heap order and keeps the items |
| Scheduler.RootIsFirst | spiders/scheduler.go:137-156 | the root of a heap comes before every other item |
| Scheduler.InsertItemRefines | spiders/scheduler.go:29-47 | inserting by (priority, order) is inserting the newest request by priority alone |
| Scheduler.RestoredSeenFingerprints | spiders/scheduler.go:107-126 | seen after a restore is the saved fingerprints and those of the filtered requests |
| Scheduler.SortedSeenFingerprints | spiders/checkpoint.go:77-84 | the saved fingerprints are strictly increasing and are exactly the seen ones |
| CrawlSafety.NothingDuplicated | spiders/crawl_runtime.go:169-289 | over any chain of runs, accepted requests are queued, outstanding, cancelled, finished or lost by an earlier pause, counted with multiplicity |
| CrawlSafety.NothingLostIffReadsAgree | spiders/crawl_runtime.go:221-289 | every accepted request is queued, in activeRequests or finished, over any chain of runs, if and only if on no result the context took on the task's error between the two comparisons |
| CrawlSafety.AtMostOnce | spiders/scheduler.go:49-126 | over any chain of runs joined by pause and restore, whatever the reads, no two finished filtered requests share a fingerprint, and none finishes twice |
| CrawlSafety.PauseSnapshotIsExact | spiders/crawl_runtime.go:169-183 | the snapshot of a paused run is the held requests in the order they were started and then the queue; the held ones are cancelled ones; they are all the cancelled ones, and snapshot and finished requests make up the accepted ones, if and only if the reads agreed |
| CrawlSafety.CompleteRunFinishesAll | spiders/crawl_runtime.go:93-121 | a chain that ends without an error has finished everything it accepted, if and only if the reads agreed on every result |
| CrawlSafety.ProgressAndBounds | spiders/crawl_runtime.go:185-212 | at every loop head active counts the outstanding requests and is at most concurrentRequests, every task started is counted, outstanding or cancelled, an incomplete run waits for something, and a complete one left nothing unreceived |
| CrawlSafety.AccountedIffReadsAgree | spiders/crawl_runtime.go:221-289 | over one run the counters and activeRequests account for every task started if and only if the reads agreed on every result |
| CrawlPause.EndingDecides | spiders/crawl_runtime.go:93-121 | the error a run stops with, and its context's error, are those of the first of two kinds of events: a context error met at a loop head, or a result that complains |
| CrawlPause.PausedIffRecordedFirst | spiders/crawl_runtime.go:93-121 | a run that is over is paused if and only if its context's error was recorded before any complaint, or the first complaint wraps that error |
| CrawlPause.CheckpointLost | spiders/crawl_runtime.go:115-120 | a run cancelled while it waits, whose next result fails in the item hook, ends with the hook's error and no checkpoint although a request is queued |
| CrawlPause.RequestLost | spiders/crawl_runtime.go:221-229 | a run whose only result fails with the error that its context takes on between the two comparisons pauses with a snapshot that has lost the request |
| CrawlInvariant.StepKeepsInv | spiders/crawl_runtime.go:221-339 | every event keeps ledger, tables and counters consistent |
| CrawlInvariant.TraceKeepsInv | spiders/crawl_runtime.go:93-121 | so does every trace, across restarts |
| CrawlPotential.StepPotential | spiders/crawl_runtime.go:221-259 | starts made plus (M+1) for each unseen fingerprint plus the retry budget of queued and active requests never grows |
| CrawlPotential.TracePotential | spiders/crawl_runtime.go:93-121 | nor does it over a whole run |
| CrawlBounds.StartsAreBounded | spiders/crawl_runtime.go:185-205 | from any loop head on, with filtered callback requests over fingerprints U and no retry hook, the tasks ever started are at most the potential there |
| CrawlBounds.TurnsAreBounded | spiders/crawl_runtime.go:93-121 | and the turns of the loop are at most the starts still possible, the tasks that are out, and one more |
| CrawlBounds.ResumedRunIsBounded | spiders/crawl_runtime.go:146-167 | a run resumed from a snapshot starts at most every saved request, its remaining retries, and M+1 for every fingerprint of U that the snapshot has not seen |
| CrawlBounds.FetchBound | spiders/blocked.go:28-61 | so a first run makes at most (M+1)*\|U\| fetches for the effective retry limit M |
| CrawlBounds.RunTerminates | spiders/crawl_runtime.go:93-121 | and takes at most (M+1)*\|U\|+1 turns of the loop, whatever the environment does |
| CrawlRuntime.LoopIsTrace | spiders/crawl_runtime.go:93-121 | what the program's loop does is a trace of the transition system, of one run, ending when the run is complete |
| CrawlRuntime.CrawlRuntime.Run | spiders/crawl_runtime.go:72-132 | the loop ends completed with everything accepted finished or lost by an earlier pause, stopped by its error, or paused with an exact snapshot when that error is the context's and checkpoints are on |
| CrawlRuntime.CrawlRuntime.RestoreOrEnqueue | spiders/crawl_runtime.go:146-167 | a checkpoint replaces the start requests; without one they are queued in order until a URL fails |
| CrawlRuntime.CrawlRuntime.StartReadyTasks | spiders/crawl_runtime.go:185-205 | a done context stops the run; otherwise requests are started until the limit, an error or an empty queue |
| CrawlRuntime.CrawlRuntime.IsComplete | spiders/crawl_runtime.go:207-212 | complete means nothing outstanding, and stopped or nothing queued |
| CrawlRuntime.CrawlRuntime.HandleTaskResult | spiders/crawl_runtime.go:221-259 | one result refines the step of the transition system, in every branch; what that step queues, accepts and counts is said by CrawlFollow and CrawlCoverage |
| CrawlFollow.EnqueueDecides | spiders/scheduler.go:29-58 | a request is queued behind its equals if and only if its URL parses and it is unfiltered or its fingerprint is unseen; the seen set grows by its fingerprint if it is filtered |
| CrawlFollow.OutputsOffer | spiders/crawl_runtime.go:291-331 | of a response's outputs, the on-site requests whose item is not dropped or failed are offered in order: exactly the new ones are queued and accepted, the others raise skipped, and items, dropped items and off-site requests are counted |
| CrawlFollow.ResultOffers | spiders/crawl_runtime.go:221-259 | a result offers exactly the follow requests of its outputs, or the retry of a blocked response, and otherwise nothing |
| CrawlFollow.ResponseCounts | spiders/crawl_runtime.go:253-331 | a response that is not blocked raises the counter of requests and those of its outputs, and no other |
| CrawlFollow.BlockedCounts | spiders/crawl_runtime.go:235-252 | a blocked response raises requests and blocked requests, and its retry is counted as a blocked retry or as skipped |
| CrawlFollow.OtherCounts | spiders/crawl_runtime.go:221-289 | a robots refusal raises its own counter and no other; so does a failure, unless it carries the context's error, which raises none |
| CrawlCoverage.OutcomeIs | spiders/crawler.go:64-119 | how a task ends is decided by the first answer that stops it; a response carries all outputs of its callback |
| CrawlCoverage.ReceiveOffers | spiders/crawl_runtime.go:221-331 | receiving a result queues what its task asks for: every unfiltered request, and every filtered one with an unseen fingerprint once |
| CrawlCoverage.AskedIsQueued | spiders/crawl_runtime.go:221-331 | a request that a task asks for has its fingerprint among the seen ones or, unfiltered, one more copy of it queued and accepted |
| CrawlCoverage.SeenIsAsked | spiders/crawl_runtime.go:93-331 | over any chain of runs, the seen fingerprints are exactly those of the filtered start requests and of the filtered requests that tasks asked for |
| CrawlCoverage.CompleteCrawlCovers | spiders/crawl_runtime.go:93-331 | a crawl that ends without an error, its reads agreed, has finished a filtered request of exactly those fingerprints |
| CrawlRuntime.CrawlRuntime.PauseSnapshot | spiders/crawl_runtime.go:169-183 | held requests in the order they were started, then the queue |
| CssToXPath.TranslationKeepsMeaning | core/translator/translator.go:12-63 | on every document whose class tokens are separated by XPath white space, the emitted XPath text selects exactly the elements, text nodes and attributes that the selector list selects, in any spelling of its combinators, brackets and blanks |
| CssToXPath.ExactIffSeparated | core/translator/translator.go:12-63 | a document has this property for all selector lists if and only if its class tokens are so separated |
| CssToXPath.LostToken | core/translator/translator.go:165-171 | a class token behind a form feed, as an identifier that XPath does not see, is found by its CSS selector and not by the XPath |
| CssToXPath.TranslationIsSound | core/translator/translator.go:12-63 | on every document, the emitted XPath text selects nothing that the selector list does not |
| CssToXPath.TranslationIsText | core/translator/translator.go:12-63 | translating a selector list, in any spelling of its combinators, brackets and blanks, succeeds and gives the text of the XPath that the tree translation describes |
| CssToXPath.OnlyCommasFail | core/translator/translator.go:12-84 | a text of blanks and commas is an error |
| CssToXPath.UnionParses | core/translator/translator.go:12-63 | that text is legal XPath and parses to that tree |
| CssCompound.CompoundRoundTrip | core/translator/translator.go:149-194 | translating a printed compound, with any blanks in its brackets, gives the text of its XPath node test |
| CssCompound.CompoundFails | core/translator/translator.go:149-194 | a compound with a fault behind it is the error of that fault: a character that begins no predicate, a missing class or id name, an unclosed bracket |
| CssCompound.NamelessFails | core/translator/translator.go:271-301 | empty brackets, and an operator without a name, are errors |
| CssCompound.QuotedEqualsIff | core/translator/translator.go:271-307 | [a="v"] compares with v if and only if v has no `*=` inside and neither blanks nor quotes at its ends |
| CssCompound.QuotedContainsIff | core/translator/translator.go:271-307 | [a*="v"] looks for v if and only if v is not empty and has neither blanks nor quotes at its ends |
| CssToXPath.StepsTranslate | core/translator/translator.go:36-51 | the emitted steps begin with // for the first and for descendant combinators, and with / for child combinators |
| CssToXPath.CssToXPath | core/translator/translator.go:12-23 | the loop over branches stops at the first error and joins the XPaths with a bar |
| CssToXPath.CssBranchToXPath | core/translator/translator.go:25-63 | extraction, steps and tail of one branch, with the errors in the order in which they are found |
| CssMeaning.UnionIsExact | core/translator/translator.go:12-63 | the translation of syntax trees keeps the meaning where class tokens are separated by XPath white space |
| CssMeaning.NoFormFeedSeparates | core/translator/translator.go:165-171 | they are on every document whose class attributes hold no form feed |
| CssMeaning.UnionIsSound | core/translator/translator.go:12-63 | and never adds to it |
| CssMeaning.MatchesFound | core/translator/translator.go:36-51 | what the selector matches from the right, the XPath steps find from the left |
| CssMeaning.FoundMatches | core/translator/translator.go:36-51 | and the other way round |
| CssMeaning.TestIsPred | core/translator/translator.go:149-194 | where class tokens are so separated, each emitted test is true exactly where its CSS predicate is |
| CssMeaning.AttributeCaseMatters | core/translator/translator.go:271-301 | each of [a], [a=v] and [a*=v] means the same in both languages if and only if a is written in lower case |
| ClassTokens.TestIsExact | core/translator/translator.go:165-171 | without a form feed, the padded contains test holds iff the name is one of the class tokens |
| ClassTokens.TestIsSound | core/translator/translator.go:165-171 | on any value the test accepts only class tokens |
| ClassTokens.FormFeedIsMissed | core/translator/translator.go:165-171 | a token followed by a form feed is missed |
| CssFront.SplitIsExact | core/translator/translator.go:445-506 | joining the pieces with commas restores any text, and every piece splits to itself alone |
| CssFront.NestedSplit | core/translator/translator.go:445-506 | commas inside quotes, brackets or parentheses and escaped ones do not split; all others do |
| CssFront.EmptyBranchGoes | core/translator/translator.go:425-443 | an empty branch between commas changes nothing as long as there is another one |
| CssScan.ItemPasses | core/translator/translator.go:77-147 | every scanner passes over a quoted, bracketed, parenthesised or escaped item, nested to any depth, without a stop, and is then where it was; the step scanner takes parentheses for characters |
| CssScan.UnclosedGoesOn | core/translator/translator.go:445-506 | after a quote, bracket or parenthesis that is never closed nothing ends a piece any more |
| CssFront.NestedPseudo | core/translator/translator.go:376-423 | on nested texts the double colon found is the last one outside quotes, brackets and parentheses |
| CssFront.SplitTopLevelCommas | parser/document.go:302-363 | the loop with quote, bracket, parenthesis and escape state computes that split |
| CssFront.TopLevelPseudoElementIndex | parser/document.go:233-280 | the loop finds the last top-level double colon |
| CssFront.ExtractionRoundTrip | core/translator/translator.go:347-374 | a base with ::text or ::attr(n), the name in any layout, is cut into that base and that extraction; blanks before the double colon go, and no base means any element |
| CssFront.AttrArgument | core/translator/translator.go:366-372 | a name in any layout is an attribute to extract if and only if it is not empty and has no blank inside |
| CssFront.UnknownFails | core/translator/translator.go:347-374 | any other name behind the last double colon is an error |
| CssFront.ParseCssSteps | core/translator/translator.go:77-147 | the loop with its builder computes the steps or the error; what they are is said by StepsRoundTrip and CssScan |
| CssFront.StepsRoundTrip | core/translator/translator.go:77-147 | steps are parsed back, each descendant combinator written as any blanks and each child combinator as > with any or no blanks around it |
| CssFront.FrontEndRoundTrip | core/translator/translator.go:347-506 | a selector list, with any blanks around its branches and combinators, splits into its branches, and each branch into its own steps and extraction |
| CssSimple.CssSimpleParser.ReadIdent | core/translator/translator.go:235-241 | the longest run of identifier characters is read |
| CssSimple.CssSimpleParser.ReadBracketText | core/translator/translator.go:243-269 | the text up to the first closing bracket outside quotes is read |
| CssSimple.CssSimpleParser.ReadAttributePredicate | core/translator/translator.go:243-301 | one bracketed predicate is read, or its error returned |
| CssSimple.CssSimpleSelectorToXPath | core/translator/translator.go:149-194 | the parser object turns a compound into tag and predicates, or the first error |
| XPathLiteral.BuildLiteral | core/translator/translator.go:313-332 | the loop over the parts between quotes builds the literal |
| XPathLiteral.LiteralDenotes | core/translator/translator.go:313-332 | for every string, parsing and evaluating the written literal gives the string back |
| XPathLiteral.LiteralIsLegal | parser/selector_generation.go:166-184 | the mixed-quote case is a concat of at least two legal literals |
| XPathLang.ParseUndoesShow | core/translator/translator.go:12-63 | every printed XPath of the emitted form parses to itself |
| PagePoolSafety.BoundedFetches | engines/browser/browser_session.go:126-203 | under every interleaving at most maxPages fetches use the engine, each with a page of its own, also after Close |
| PagePoolSafety.PooledPagesAreReady | engines/browser/browser_session.go:126-193 | pages in the channel and in transit are ready, distinct and in no other hands |
| PagePoolSafety.SendNeverBlocks | engines/browser/browser_session.go:178-193 | a released page can always be sent to the channel |
| PagePoolService.LiveLedger | engines/browser/browser_session.go:111-203 | under every interleaving a grant adds one live page, a failed fetch takes its own page out, so does a fetch that finds the session closed, and no other step changes the live pages |
| PagePoolService.LockDecides | engines/browser/browser_session.go:126-163 | an open session makes a fetch wait if and only if maxPages pages are live, and otherwise grants a page that nobody has |
| PagePoolService.FinishedPageReturns | engines/browser/browser_session.go:178-193 | a fetch that ends well in an open session leaves its page ready, listed, live and on its way to the channel |
| PagePoolService.FailedPageLeaves | engines/browser/browser_session.go:178-203 | a fetch that fails takes exactly its page out of the live ones, and the next fetch that asks is granted another |
| PagePoolService.PageIsSent | engines/browser/browser_session.go:178-193 | the page of a fetch that ends well gets into the channel |
| PagePoolService.PageIsTaken | engines/browser/browser_session.go:126-176 | the first page in the channel goes to any fetch that waits or tries, which then uses it |
| PagePoolService.WaitingIsServed | engines/browser/browser_session.go:126-193 | a waiting fetch can be served by one that ends well |
| PagePoolService.ClosedSessionEnds | engines/browser/browser_session.go:111-193 | a closed session lists, grants and marks no page, and every fetch can leave |
| PagePoolSafety.MarkFailsOnlyWhenClosed | engines/browser/browser_session.go:165-176 | marking a received page busy fails if and only if the session is closed |
| PagePoolSafety.ListedPagesArePlaced | engines/browser/browser_session.go:126-203 | while open, a listed page is busy iff a fetch uses it, and ready iff it is in the channel or in transit |
| PagePoolSafety.FullMeansAllLive | engines/browser/browser_session.go:126-163 | a fetch has to wait only when maxPages pages are live |
| PagePoolSteps.StepKeepsInv | engines/browser/browser_session.go:68-203 | every atomic step keeps the ownership invariant |
| PagePoolSteps.RunKeepsInv | engines/browser/browser_session.go:68-203 | so does every interleaving |
| BrowserSession.BusyCountsFetches | engines/browser/browser_session.go:90-109 | while open, the busy count of Stats is the number of fetches using the engine |
| BrowserSession.BrowserSession.AcquireLocked | engines/browser/browser_session.go:137-149 | the locked section drops failed pages, then grants a new busy page below the limit |
| BrowserSession.BrowserSession.CleanupErrorPages | engines/browser/browser_session.go:195-203 | filtering in place keeps exactly the pages not in error, in order |
| BrowserSession.BrowserSession.Stats | engines/browser/browser_session.go:90-109 | the counts are those of the page states and add up |
| ConcurrentFetchSafety.ReturnedResults | fetchers/fetcher_async.go:43-89 | when Fetch returns, slot k carries request k and was written by one party, a worker below the dispatch index and the dispatcher from there on; it holds what fetching request k returned or else the context's error; every worker has exited |
| ConcurrentFetchSafety.OneWriter | fetchers/fetcher_async.go:43-89 | at every moment of every interleaving a slot has at most one writer |
| ConcurrentFetchSafety.FetchReturns | fetchers/fetcher_async.go:43-96 | Fetch takes a bounded number of steps and is never stuck before it returns |
| ConcurrentFetchSafety.BoundedFetches | fetchers/fetcher_async.go:43-96 | at most the configured number of fetches run at once, or one for each request when none is configured or it is more than there are; never two for one request |
| ConcurrentFetchSafety.DoneStopsFetches | fetchers/fetcher_async.go:43-96 | once the context is done no fetch begins: only those that had begun may still be fetched |
| ConcurrentFetchSafety.AllOrNone | fetchers/fetcher_async.go:43-96 | without a cancellation every request is fetched and its slot holds what came back; with one before the start none is |
| ConcurrentFetchSteps.StepKeepsInv | fetchers/fetcher_async.go:43-89 | every atomic step keeps the slot invariant |
| ConcurrentFetchSteps.StepLowers | fetchers/fetcher_async.go:43-89 | every step but the cancellation lowers the number of steps left |
| Lcs.LongestCommonSubsequence | core/storage/score.go:228-249 | the two rows, swapped and zeroed, compute the length by the recursion |
| Lcs.LengthIsLongest | core/storage/score.go:228-249 | a common subsequence of that length exists, and none is longer |
| Lcs.Symmetric | core/storage/score.go:211-249 | the length does not depend on the order of the two lists |
| Lcs.LengthBounds | core/storage/score.go:211-249 | it is at most either length, and equals both only for equal lists |
| Score.TokenSet | core/storage/score.go:164-186 | the builder loop gathers the maximal runs of letters and digits |
| Score.TokenSetSimilarity | core/storage/score.go:188-209 | the two counting loops compute common tokens over all tokens |
| Score.SequenceUnit | core/storage/score.go:211-226 | sequence similarity is symmetric, in [0,1], and 1 iff the sequences are equal |
| Score.JaccardUnit | core/storage/score.go:188-209 | token similarity is symmetric, in [0,1], and 1 iff the sets are equal |
| Score.ParentUnit | core/storage/score.go:69-81 | so is the parent similarity, with 1 for equal parents |
| Score.SimilarityUnit | core/storage/score.go:19-54 | a score is symmetric and in [0,1]; equal fingerprints score exactly 1 |
| Score.SumScoreComponents | parser/adaptive_diagnostics.go:122-128 | the loop over the score's components sums their contributions |
| Score.ScoreFingerprint | core/storage/score.go:19-26 | the score that the loop over all eight components computes is their weighted sum; what the parts and the sum are is said by ScoreMeaning |
| TextFields.NormalizedIffWords | core/storage/score.go:83-109 | two texts are equal up to white space if and only if they have the same words in the same order |
| TextFields.FieldsOfLayout | core/storage/score.go:164-186 | the fields of a text are its maximal runs, in order |
| ScoreMeaning.TokensAreRuns | core/storage/score.go:164-186 | the tokens of a value are the maximal runs of letters and digits of its lower-case form |
| ScoreMeaning.JaccardIs | core/storage/score.go:188-209 | common tokens over all tokens, by inclusion and exclusion; 0 iff there are tokens and none is shared, 1 iff the sets are equal |
| ScoreMeaning.ExactIs | core/storage/score.go:83-93 | a tag scores 1 for the same lower-case words in the same order, and 0 otherwise |
| ScoreMeaning.StringExtremes | core/storage/score.go:95-113 | a text scores 1 iff its words or its tokens are the same, and 0 iff one of two different texts is blank or no token is shared |
| ScoreMeaning.MapKeyExtremes | core/storage/score.go:115-137 | attribute names score 1 iff they are the same without regard to case, and 0 iff there are some and none is shared |
| ScoreMeaning.AttrValueExtremes | core/storage/score.go:139-162 | attribute values score 1 iff they have the same tokens, and 0 iff one side has no attributes or no token is shared |
| ScoreMeaning.SequenceIs | core/storage/score.go:211-226 | sequences score the longest common subsequence over the longer one, and 0 iff they share nothing |
| ScoreMeaning.ParentShares | core/storage/score.go:69-81 | a parent lacks 0.35, 0.25, 0.2 and 0.2 of what its tag, text, names and values lack |
| ScoreMeaning.ScoreShares | core/storage/score.go:32-54 | a score lacks each part's weight times what that part lacks |
| ScoreMeaning.OneIffAlike | core/storage/score.go:19-109 | a score is 1 if and only if all eight parts are alike, said by words, names, tokens and sequences |
| ScoreMeaning.OtherTagCosts | core/storage/score.go:83-93 | an element that differs in its tag alone scores 1 - 0.22 |
| Relocation.MinScore | parser/document.go:365-373 | 0 means the default of 0.65; outside [0,100] is an error; otherwise the threshold is the percentage as a fraction, in (0,1] |
| Relocation.RelocateWithKey | parser/document.go:446-488 | the filtered running maximum finds nothing iff every score is below the threshold, and otherwise the first of the best |
| Relocation.DiagnoseRelocate | parser/adaptive_diagnostics.go:48-120 | the candidates are all elements, each with its score, the better before the worse and among equals the earlier first; the first is accepted by the threshold |
| Relocation.SearchesAgree | parser/adaptive_diagnostics.go:90-128 | both searches give the same verdict, element and score |
| Relocation.SavedIsFound | parser/document.go:446-488 | a saved element is found in the unchanged document with score 1, and is itself the answer iff no earlier element is alike in all eight parts |
| Relocation.FirstBestIsUnique | parser/document.go:463-488 | the first of the best is one element |
| CssIdentifier.BuildIdentifier | parser/selector_generation.go:150-160 | the builder loop escapes the id rune by rune |
| CssIdentifier.DecodeUndoesEscape | parser/selector_generation.go:150-164 | decoding the escaped id by CSS Syntax Level 3 gives it back if and only if it has no NUL, is neither empty nor a lone hyphen, and has no digit after a first hyphen |
| SelectorGen.NthOfTypeIndex | parser/selector_generation.go:132-148 | the walk over the siblings counts those of the element's name up to and with it |
| SelectorGen.ClimbParts | parser/selector_generation.go:44-71 | part i of the path was made for the ancestor at its level |
| SelectorGen.ClimbExtent | parser/selector_generation.go:44-71 | the short path ends at the nearest element with an id, every other one below html or below the topmost element |
| SelectorGen.OwnPathFits | parser/selector_generation.go:44-93 | the path fits its own element if and only if tags on the way are lower-case and the counted siblings are spelled alike |
| SelectorGen.FormsAgree | parser/selector_generation.go:73-110 | the CSS reading with :nth-of-type from the right and the XPath reading with positions from the left select the same elements |
| SelectorOrder.ElementIsFirst | parser/selector_generation.go:44-110 | with unique ids and a top part that fits one element, the element precedes every other match in the document |
| SelectorOrder.ElementIsOnly | parser/selector_generation.go:44-110 | and is the only match when no unindexed step has a sibling of its tag |
| SelectorOrder.IdAnchors | parser/selector_generation.go:56-60 | a short path that ended at an id has such a top part as soon as ids are unique |
| SelectorOrder.OtherMatches | parser/selector_generation.go:83-93 | then the other matches are exactly the elements behind twins: those that leave the way at an unindexed step for a sibling of its tag and fit the steps below |
| SelectorOrder.TwinMatchesToo | parser/selector_generation.go:83-88 | a sibling of the same tag beside an unindexed element matches too |
| SelectorText.GeneralSelector | parser/selector_generation.go:44-71 | the loop from the element upwards builds the text of the path in both formats and both lengths |
| SelectorText.JoinSelectorParts | parser/selector_generation.go:95-110 | the reversed parts are joined with the separator and the leading slashes |
| SelectorReading.PathReads | parser/selector_generation.go:73-110 | whatever its tags and ids, a path's text is read as as many parts or not at all; a part that cannot be written is read as one that asks for another id or a tag of another length; it is read as its parts if and only if all can be written |
| SelectorMeaning.TextMeansPath | parser/selector_generation.go:44-110 | where every id and tag on the way can be written, the text selects what the path fits |
| SelectorMeaning.SelectsItsElement | parser/selector_generation.go:11-110 | the generated text selects its element if and only if the tags on the way are lower-case with their counted siblings spelled alike, and every one is a name of the language, and in CSS every id on the way can be written |
| SelectorMeaning.OwnIdIsEnough | parser/selector_generation.go:56-60 | the short form of an element with an id selects it, in XPath always, in CSS if and only if the id can be written |
| SelectorMeaning.OddTagIsLost | parser/selector_generation.go:83-93 | an element without an id is not selected by its own text if its tag has a colon, or in CSS a dot |
| SelectorMeaning.OfficeDocument | parser/selector_generation.go:73-93 | a document in which `<o:p>` is found by no form, and an element with id -5 by its short XPath but not by its short CSS form |
| SelectorMeaning.TopmostHasNoSelector | parser/selector_generation.go:50-54 | an element without a parent element gets the empty text, which selects nothing |
| SelectorMeaning.SelectsItFirst | parser/selector_generation.go:11-110 | if the text selects its element, ids are unique and the top part fits one element, then the element is first in document order among all that the text selects, and the only one without twins |
| SelectorMeaning.SelectsItAndTwins | parser/selector_generation.go:83-93 | and the text selects exactly the element and what lies behind twins |
| SelectorMeaning.NotAlwaysUnique | parser/selector_generation.go:83-88 | on every document, for the first of several siblings of a tag the text selects a second element |
| RobotsPattern.TranslationIsCorrect | spiders/robots.go:429-443 | the anchored expression accepts a path iff a prefix of it (all of it if the pattern ends in $) matches with stars as any text without newline |
| RobotsPattern.ExpressionParses | spiders/robots.go:429-443 | quoting and replacing gives one token for each character of the pattern |
| RobotsPattern.StarIsAnything | spiders/robots.go:429-443 | on a path without newlines a star stands for any text |
| Robots.AgentScore | spiders/robots.go:357-371 | a score is -1, 1 exactly for the wildcard, or one more than the agent's bytes |
| RobotsAgents.NamedAgentMatches | spiders/robots.go:357-388 | a named agent matches if and only if it is a prefix of the product of some word of the lower-cased user agent: what stands before the first slash, without outer punctuation |
| RobotsAgents.RuleLengthCounts | spiders/robots.go:445-449 | a rule's length counts the bytes of every character but stars and a final dollar sign |
| Robots.GroupMatchScore | spiders/robots.go:311-319 | the loop computes the best score of a group's agents |
| Robots.MatchingGroups | spiders/robots.go:287-309 | the online selection is the groups of the best score, in order |
| Robots.SelectedAreBest | spiders/robots.go:287-309 | chosen are exactly the groups whose score is maximal and not negative |
| Robots.WildcardNeverMixes | spiders/robots.go:287-319 | once an agent matches by name, every chosen group has an agent that does |
| Robots.MergeGroups | spiders/robots.go:321-332 | the loop merges rules, the larger delay and the slower rate |
| Robots.DelayIsLargest | spiders/robots.go:71-83 | the effective delay is the largest of the configured one and all chosen delays and rates |
| Robots.Decide | spiders/robots.go:246-268 | access is allowed iff no rule applies or an allow rule is among the longest that do |
| Robots.CanFetch | spiders/robots.go:246-309 | for a user agent the decision is that of the rules of its best groups, said without any order |
| Robots.DecisionIsOrderFree | spiders/robots.go:246-332 | reordering groups, agents or rules does not change the decision |
| RobotsParse.ParseRobotsTxt | spiders/robots.go:164-244 | the loop over the scanner's lines computes the groups of a file's text |
| RobotsFile.LineReads | spiders/robots.go:184-199 | a line is read as its key in any case and its value, with any blanks around both and any comment behind; a line without a colon says nothing, one without text ends a group |
| RobotsFile.EveryLine | spiders/robots.go:184-199 | every text is a line in one of these forms |
| RobotsFile.FileSays | spiders/robots.go:164-244 | a file of sections, its lines written in any way that fits the scanner, is parsed into one group for each section, with its agents, its rules with a pattern in order, and its last valid delay and rate |
| RobotsFile.EveryFileSays | spiders/robots.go:164-244 | and every text is such a file: its lines have sections, and the parser's groups are theirs |
| RobotsParse.LineEnds | spiders/robots.go:183-185 | a return before the newline does not belong to the line, and the last line needs no newline |
| RobotsParse.LongLineEndsFile | spiders/robots.go:183-184 | from a line of 65536 bytes or more on, the file is not read |
| RobotsParse.RateUndoesPrint | spiders/robots.go:398-412 | a rate printed as requests/seconds, with or without a plus sign and with any blanks around the slash, is read back if it allows a request and the count fits an int, and otherwise ignored |
| RobotsParse.GroupsNameAgents | spiders/robots.go:164-244 | every parsed group names an agent |
| ShellWords.SplitWords | internal/cli/shell/curlcommand/curlcommand.go:251-307 | the loop with quote mode, escape flag and builder computes the words or the unterminated-quote error; what they are is said by SplitUndoesQuoting |
| ShellWords.SplitUndoesQuoting | internal/cli/shell/curlcommand/curlcommand.go:251-345 | for any words over all characters, each of any number of pieces written unquoted, in '...', "..." or $'...', their characters bare or escaped, with any blanks and line continuations between the words, splitting gives the words back if and only if no single-quoted piece begins where its word so far ends in a dollar sign |
| ShellWords.TrailingBackslash | internal/cli/shell/curlcommand/curlcommand.go:297-307 | a backslash at the very end is kept, in the word that it follows or as a word of its own |
| ShellWords.UnclosedQuote | internal/cli/shell/curlcommand/curlcommand.go:297-307 | a quote that is opened behind a gap and not closed is an error |
| ShellWords.QuotedDollarIsLost | internal/cli/shell/curlcommand/curlcommand.go:309-315 | `'$''a'` is read as the word a |

The methods of `CrawlRuntime` and `BrowserSession` without a row say that a handler is the step of the transition
system of the same name; they link the objects to the systems and are not results of their own.

## Left out

- CssToXPath.TranslationKeepsMeaning: selectors outside the grammar of `CssLang` are not given a meaning (pseudo-classes, other attribute operators, escapes, values with blanks or quotes at their ends, `*=` inside an `[a=v]` value); tag and attribute names begin with a letter or underscore, attribute names are lower-case. Blanks are those of Selectors Level 3; the front end alone takes all of Unicode's.
- CrawlBounds.StartsAreBounded: one run, with filtered callback requests, non-negative retry counts and no retry hook; unfiltered requests can go on for ever.
- PagePoolService.WaitingIsServed: says that a waiting fetch can be served, not that the scheduler of goroutines does it; after a failed fetch nobody is woken, because releasePage sends nothing.
- RobotsFile.FileSays: what strconv.ParseFloat makes of a number of seconds is a table.
- SelectorMeaning.SelectsItsElement: a text outside the generated forms counts as selecting nothing, so a tag that carries a selector of its own, such as `a,*`, is not given the meaning that the whole language has for it.
- The parserFor cache, crawlerDomainLimiters, the allowed-domain check and robots prefetching: bookkeeping around calls that are answers of an event here.
- Item streaming: a run that streams its items may stop with its context's error while it hands one over, in the middle of a result.
- OnStart and OnClose, the error list, per-session counters and progress: they do not feed back into the loop.
- Response.Follow, request cloning, header normalisation and the fingerprint hash: field by field.
- Wall-clock delays, timeouts, HTTP, chromedp, SQLite and files: input and output.
- The copies of the scanners in parser/document.go and of the literal writer in parser/selector_generation.go: the same code as in the translator, modelled once.
- How parser.Document evaluates selectors: cascadia, goquery and htmlquery are not part of this model; CSS and XPath have the meaning of their standards instead, so a text node that the repository would drop as blank still counts as selected.
- Floating-point rounding in scores.
- Redundant `//` inside an XPath, axes, functions and node tests that neither translator nor generator emits.
