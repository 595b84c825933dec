# A verified model of the DTP agent's core

The agent finds certificates on a host and reports them to a server. The server may later read a
certificate's absence from a report as its absence from the host, so what matters most is not what the
agent finds but what its silence means. This project models the code behind that promise, and behind the
files the agent reads and keeps, and proves:

* **Chains and leaves** (`Certificates`, `Reference`, `ChainStore`, `Stores`). The memoised, budgeted,
  cancellable certificate store against a reference with no memo, budget or cancellation. Whatever runs
  out, and wherever, a chain is a prefix of the reference chain and no leaf is lost without the shortfall
  saying so; when nothing runs out, both are the reference's. The reference itself is characterised step
  by step, and shown sound.
* **Runs and uploads** (`Run`, `Upload`). Collectors are arbitrary scripts of observations and failures,
  under a latching limit, uploaded page by page to a server that may fail at any page. If the server
  holds a final page that names a source, it holds everything that source offered, once and in order.
* **Sweeps** (`FileReport`, `Sweeps`). The directory sweeps for certificate files and for keystores, over
  any tree, overlapping roots, unreadable entries, limits and cancellation, joined to the run and the
  upload: a source named on a final page means that every certificate there was to find is on the server.
* **Java keystores** (`ModifiedUtf8`, `KeystoreFormat`, `KeystoreRoundTrip`, `KeystoreBlindness`,
  `JavaKeystores`). Round trip against a writer, with the exact condition under which it holds;
  independence of every skipped byte; truncation.
* **nginx and Apache configurations** (`NginxSyntax`, `ConfigReaders`, `Nginx`, `NginxIncludes`,
  `ApacheSyntax`, `Apache`). Round trips against printers, files spliced in where they are included,
  the closure of cyclic include graphs, and exactly where a continuation may be put into an Apache line.
* **Probing** (`Listeners`, `ProbeSchedule`). One socket under many names, and many sockets at once in
  every interleaving.
* **Durable state** (`ServiceLog`, `StateDirs`). The rotating, repeat-collapsing log on a disk that may
  fail at any operation, and crash-atomic writes with a stable key identity.

What the code updates step by step is a class or a method with a loop here, proved against functions on
values; the theorems are about those functions. A `Context` is polled as the code polls it and may be
cancelled at any poll; a `World` holds which signatures verify and the time the store was made at. The
file system, X.509 parsing, probe verdicts, disk faults and crashes are parameters: functions over which
every theorem quantifies.

`dafny verify dfyconfig.toml` checks all of it.

## What the model found

Where the code does not do what one would expect of it, there is an input that shows it and a condition,
in both directions, that says when it does.

* **Keystore round trip.** A key entry whose chain has certificates of fewer than eight bytes can be
  refused by the length guard that is meant for corrupt counts. `KeystoreRoundTrip.SmallKeystoreIsRefused`
  is a well-formed keystore of 54 bytes that does not come back; `KeystoreRoundTrip.KeystoreRoundTrips`
  says that a keystore comes back exactly when every key entry's chain is within the guard.
* **Where a repeat count stands.** log.go says it is "said on the line it belongs to". When the same
  message comes back after the window it is. When another message ends the row, the count stands on that
  other line: "a", "a", "b" is written as "a" and "b (and 1 more like it)"
  (`ServiceLog.CountOnAnothersLine`). Over any run of calls every count is of its own line's message
  exactly when every row of repeats is ended by its own message (`ServiceLog.CountsAreOwnExactlyWhen`);
  for one call, exactly when the message is the last one written (`ServiceLog.Log.Printf`).
* **nginx words.** An empty word leaves no token and is lost (`Nginx.EmptyWordIsLost`). A printed tree comes
  back word for word exactly when none of its words is empty (`Nginx.TreeComesBackExactlyWhen`). An empty
  Apache argument does come back.
* **Apache continuations.** Behind a line that itself ends in a backslash, a continuation makes two lines of
  one (`ApacheSyntax.BreakBehindBackslash`). It changes nothing exactly within a line, or behind one that
  ends in neither a backslash nor a carriage return (`ApacheSyntax.BreakChangesNothing`).
* **What a complete sweep passes over.** Files that are empty, too large, behind a link, below the depth
  limit, or whose size cannot be had: `Sweeps.PassOverUnsized` is a sweep that passes one over and is
  complete. A complete sweep has examined a file exactly when `Sweeps.Holds` says that a root holds it
  (`Sweeps.ExaminedExactlyWhatIsHeld`).

Two things that the model takes from the code and that are easily missed: the name in an Apache closing tag
makes no difference, since both branches of the mismatch test end the section; and an Apache block never
returns an error, only a file nested too deep does.

## Model

| member | source | states |
|---|---|---|
| Certificates.VerifyCost | internal/parse/chain.go:370-406 | every check costs at least one unit, whatever the key |
| Certificates.LargerModulusCostsMore | internal/parse/chain.go:376-390 | an RSA check never costs less for a longer modulus, whatever the exponent |
| Certificates.UsualCosts | internal/parse/chain.go:370-390 | under the usual exponent RSA-2048 is the unit and costs go with the cube of the modulus |
| Certificates.LeavesFitBudget | internal/parse/chain.go:40-47 | as many leaves as one store reports fit the budget under a P-384 key |
| Reference.BestIssuerIsBest | internal/parse/chain.go:288-318 | scanning candidates and keeping the first of the highest rank finds the issuer no other outranks; none exactly when nothing unvisited truly issued the certificate |
| Reference.BestIssuerIsPreferred | internal/parse/chain.go:257-318 | in the certificates' own terms: of all unvisited true issuers, the one chosen is within its dates if any is; among those as good in that it is self-signed if any is; among those as good in both it is the first |
| Reference.PrefixClimbsByPreference | internal/parse/chain.go:257-286 | every member of every part of a reference chain is the preferred issuer of the one below, which is not self-signed |
| Reference.LeafExactlyWhen | internal/parse/chain.go:217-233 | a certificate is a leaf if and only if it is no CA and, unless it says so itself, signed no other: a version 1 root is none |
| Reference.ChainAboveIsTheWalk | internal/parse/chain.go:257-286 | a list of certificates is the reference chain if and only if each member is the best unvisited issuer of the one below, none stands on a self-signed one, and it stops only at a self-signed certificate or where nothing more issued the top |
| Reference.ReferencePrefixIsSound | internal/parse/chain.go:257-341 | any prefix of the reference chain is sound: names match, signatures are true, no member is barred from issuing, nothing follows a self-signed certificate, no DER repeats or is the leaf's |
| Reference.LeavesOfPrefix | internal/parse/chain.go:217-233 | the leaves of the first certificates are the first of the leaves: the report keeps input order |
| ChainStore.Context.Err | internal/parse/chain.go:355-358 | cancellation is monotone: once a poll has seen it, every later one does |
| ChainStore.Budget.Spend | internal/parse/chain.go:50-57 | what is left and everything ever charged always add up to the whole budget |
| ChainStore.ChecksWithinBudget | internal/parse/chain.go:42-57 | however stores share it, no more signatures are checked than the budget has units |
| ChainStore.DistinctKeepsOneOfEach | internal/parse/chain.go:135-170 | the index keeps exactly one certificate for each DER that was put in |
| ChainStore.DistinctKeepsOrder | internal/parse/chain.go:135-170 | what is kept is the first of each DER, in the order they came |
| ChainStore.BestAmongNamed | internal/parse/chain.go:293-300 | looking only among certificates with the right subject that may issue finds the issuer a search of all would find |
| ChainStore.BuiltIndexes | internal/parse/chain.go:135-170 | the maps hold exactly what a search of the list of distinct, capped certificates finds, and truncation is flagged exactly when something was left out |
| Stores.Store.constructor | internal/parse/chain.go:135-171 | a new store indexes its own certificates first, up to the fixed size, and starts with no shortfall but truncation |
| Stores.Store.Signed | internal/parse/chain.go:343-368 | a yes is always a true signature; while nothing has run out the answer is exact; a pair is checked and charged at most once, and not at all once the store is unsettled |
| Stores.Store.IssuerOf | internal/parse/chain.go:288-318 | the reference's best issuer, which is the preferred one, or none once anything ran out: never an issuer the rules might not have chosen |
| Stores.Store.IssuedAnother | internal/parse/chain.go:320-333 | a yes is proof that it signed another indexed certificate; while nothing ran out a no is, too, proof that it did not |
| Stores.Store.ChainFor | internal/parse/chain.go:257-286 | always a prefix of the reference chain up to the fixed depth, equal to it while nothing ran out, with TooDeep set exactly when the reference chain is longer; each member is the preferred issuer of the one below; the ledger grows by the cost of each new pair |
| Stores.Store.Leaves | internal/parse/chain.go:176-233 | no reference leaf is missing unless the report was capped or interrupted; while signatures were settled it is exactly the reference leaves in input order, each with its reference chain; nothing is reported twice |
| Stores.AdvancesFurther | internal/parse/chain.go:347-368 | charging composes over any sequence of calls: the ledger grows by the costs of exactly the newly checked pairs, and shortfalls only accumulate, each for a reason |
| Stores.Store.CompleteAtCap | internal/parse/chain.go:217-233 | a report stopped at its cap holds the reference's first leaves, and there really are more |
| Run.Result.Observe | internal/collect/run.go:140-174 | an observation is recorded exactly when both limits have room and the run has never been full; the first refusal latches, marks the result incomplete, and says so once |
| Run.PlayedResult | internal/collect/run.go:154-174 | a collector's result is a first part of what it offered, all of it exactly when the run did not fill up; it is complete exactly when that and nothing was missed |
| Run.RunRecordsLongestFitting | internal/collect/run.go:107-174 | across all collectors, what is recorded is the longest prefix of everything offered that fits both limits, and the run is full exactly when that is not all |
| Run.CompletedMeansAllRecorded | internal/collect/run.go:107-128 | a source is complete if and only if the run was not full before it, everything it offered was recorded, and it missed nothing |
| Run.CappedMeansFull | internal/collect/run.go:176-188 | some result is marked as cut short exactly when the run reached its limit |
| Run.LimitIsSaidOnce | internal/collect/run.go:138-174 | a result cut short by the limit carries one error that says so, and any other none |
| Run.NotRunIsSaid | internal/collect/run.go:107-128 | a collector whose turn comes when the run is full has observed nothing, is not complete, and says it was not run |
| Run.RunWithin | internal/collect/run.go:107-128 | the loop over the collectors, disabled ones skipped and later ones refused once the run is full, yields what the specification of a run yields |
| Run.Collect | internal/collect/collect.go:75-83 | any script of offers, failures and errors leaves the run and the result where playing it step by step leaves them |
| Run.ReachedRunLimit | internal/collect/run.go:176-188 | true exactly when some result was cut short by the run's limit |
| Upload.ChunksPartition | internal/transport/run.go:69-79 | paging is a partition: concatenated, the pages are the observations in order; none is empty or over the page size |
| Upload.Chunk | internal/transport/run.go:69-79 | the loop that reslices produces that partition |
| Upload.Report | internal/transport/run.go:17-66 | the server accepts a prefix of the run's pages, in order and each once; success means all of them |
| Upload.FinalPageComesLast | internal/transport/run.go:17-66 | a server that holds a final page holds the whole run, in order, each page once |
| Upload.ErrorsAreOnTheFinalPage | internal/transport/run.go:17-66 | an error is on a page if and only if the page is the final one and some collector reported it |
| Upload.AbsenceSafety | internal/transport/run.go:17-66 | for any collectors, limits and upload failure: if the server holds a final page naming a source, the source missed nothing and what the server holds from it is exactly what it offered, once and in order |
| Upload.UnseenIsNeverNamed | internal/collect/run.go:107-174 | a source that was cut short or missed something is named on no final page |
| Upload.DisabledIsNeverNamed | internal/collect/run.go:107-128 | a source the host has disabled is named on no final page |
| FileReport.Examine | internal/collect/fs.go:235-241 | for any list of certificates: no leaf is missing unless the store was truncated or interrupted; with a key and no leaf the first certificate is reported, and with a key and nothing but CAs it always is, whatever the budget did; no CA is reported otherwise; every chain is a start of its reference, the longest of the fixed depth while signatures were settled, and all of it if it was not too deep either; the budget is charged exactly for the pairs checked |
| FileReport.LeavesMean | internal/parse/chain.go:135-233 | what a store promises of its index, said of the list the file held: duplicates and the size cap accounted for |
| Sweeps.Sweep.NoteShortfall | internal/collect/collect.go:95-114 | a store cut short makes the sweep incomplete exactly when certificates went unseen; a shorter chain does not; each of the two leaves its own error, once a file, and otherwise there is none |
| Sweeps.Sweep.ObserveAll | internal/collect/fs.go:242-260 | the observations are a first part of what was found, all of it if the sweep is still complete, each as Sweeps.ObservationStands and Sweeps.RecordTells say |
| Sweeps.ObservationStands | internal/collect/fs.go:243-256 | an observation says a key is there exactly when one is, and where: in or beside a plain file, and in the keystore itself for an alias, which its location names |
| Sweeps.RecordTells | internal/collect/keystore.go:301-323 | what was found in a part is observed with its certificate and with the start of its reference chain, which is the whole chain unless the part was cut short |
| Sweeps.Sweep.ExaminePlain | internal/collect/fs.go:204-261 | one file on its own budget: the sweep's account of what it observed stays exact, and no more signatures are checked than the budget has units |
| Sweeps.Sweep.ExamineKeystore | internal/collect/keystore.go:243-298 | all aliases of a file share one budget, so one file is charged at most once over; a sweep still complete has examined every alias |
| Sweeps.ChecksPaidFor | internal/parse/chain.go:347-368 | over the stores that share a budget, the costs of all pairs they checked are exactly what has been spent |
| Sweeps.Sweep.Examine | internal/collect/keystore.go:200-241 | a file is examined once by absolute path; one that cannot be read, or only partly, leaves the sweep incomplete and an error naming it; a complete sweep is done with all it examined; one file costs at most one budget |
| Sweeps.Sweep.Walk | internal/collect/fs.go:117-170 | a walk that goes on in a complete sweep has examined exactly the files the tree holds, within depth and size and through no link; in any case nothing else; a tree with nothing to examine and nothing withheld leaves the result as it was |
| Sweeps.Sweep.VisitFile | internal/collect/fs.go:151-168 | a file is examined only if its name and size make it worthwhile, and always if the sweep goes on complete; the limit on files stops a walk only by making the sweep incomplete |
| Sweeps.Sweep.Collect | internal/collect/fs.go:80-115 | a sweep ending complete has examined exactly the files its roots hold, and in any case no more; its result is a script played under the run's limit |
| Sweeps.ExaminedExactlyWhatIsHeld | internal/collect/fs.go:117-170 | by absolute name, a complete sweep has examined a file if and only if some root holds it by a path within the depth, through no link, of a name and size worth opening |
| Sweeps.PassOverUnsized | internal/collect/fs.go:158-163 | a file whose size cannot be had is not examined and the sweep is complete and empty |
| Sweeps.CompleteMeansReported | internal/collect/keystore.go:110-151 | every worthwhile file under the roots of a complete sweep was read to its end and every reference leaf in it was observed there, its key with it; its chain is the whole reference chain unless an error names the file as cut short, and a start of it in any case; where there is a key, the first certificate was observed if all are CAs, and otherwise some certificate of the file |
| Sweeps.NothingTwice | internal/collect/keystore.go:200-214 | no certificate of one alias or file is observed twice, whatever roots overlap and however often the file repeats it |
| Sweeps.ServerKnowsAll | internal/collect/collect.go:64-73 | if the server holds a final page naming the sweep, every leaf to be found under its roots, and with a key among CAs the first certificate, is among what the server holds from it, with where its key is, and with its whole reference chain unless an error on that page names the file as cut short |
| KeystoreFormat.TruncationOnlyShortens | internal/parse/keystore.go:54-137 | for every file and every cut, the entries of the cut file are a prefix of the whole file's |
| KeystoreFormat.EntryAt | internal/parse/keystore.go:77-137 | an entry read leaves the position further on, by fourteen bytes at least, and within the file |
| KeystoreBlindness.KeysAreNeverRead | internal/parse/keystore.go:77-137 | two files that agree outside private-key blobs and creation dates give the same entries and the same error |
| KeystoreRoundTrip.ReadsWhatWasWritten | internal/parse/keystore.go:54-162 | whatever was written, what comes back is everything before the first key entry whose chain the length guard refuses, and that refusal |
| KeystoreRoundTrip.KeystoreRoundTrips | internal/parse/keystore.go:54-162 | all aliases, key flags and parseable certificates come back in order with no error, if and only if every key entry's chain length is within the guard |
| KeystoreRoundTrip.SmallKeystoreIsRefused | internal/parse/keystore.go:99-112 | a well-formed keystore of 54 bytes whose one key entry has five certificates does not come back |
| KeystoreRoundTrip.RealCertificatesPass | internal/parse/keystore.go:99-112 | certificates of eight bytes or more always pass the guard |
| KeystoreRoundTrip.StartsThatAreRefused | internal/parse/keystore.go:54-74 | any magic number but two, any version but two, and more entries than the file has room for are refused, each as what it is |
| KeystoreRoundTrip.ReadsUpToOtherEntry | internal/parse/keystore.go:76-137 | written entries followed by a secret key or an entry of no known kind: those entries come back, and an error that says whose and what it was |
| KeystoreRoundTrip.NumberRoundTrip | internal/parse/keystore.go:191-205 | big-endian numbers read back as written |
| ModifiedUtf8.TextRoundTrip | internal/parse/keystore.go:210-257 | splitting any text of Unicode scalars into UTF-16 units and joining surrogate pairs again gives the text |
| ModifiedUtf8.AliasRoundTrip | internal/parse/keystore.go:210-245 | an alias of any Unicode scalars, written in modified UTF-8 as a writer does, decodes to itself |
| ModifiedUtf8.MalformedByteIsReplaced | internal/parse/keystore.go:223-240 | a byte that starts nothing, or a sequence cut off at the end, is one replacement character, and reading goes on behind it |
| ModifiedUtf8.DecodeModifiedUtf8 | internal/parse/keystore.go:223-245 | the decoding loop equals the specified decoding on every byte string, malformed ones included |
| JavaKeystores.BeReader.Take | internal/parse/keystore.go:178-189 | the reader never passes the end, does not move on failure, and latches its first error |
| JavaKeystores.BeReader.ReadEntry | internal/parse/keystore.go:77-137 | reading an entry with the latching reader is the positional specification of it |
| JavaKeystores.JavaKeystore | internal/parse/keystore.go:54-137 | the parser returns the entries and error of the specification on every byte string |
| NginxSyntax.TokensRoundTrip | internal/collect/nginx.go:131-202 | however statements are written, their tokens come back: words bare or in quotes of either kind, with braces, semicolons, hashes, spaces and newlines in them, with needless backslashes or with ones that stand for themselves; blanks, line ends and comments between |
| NginxSyntax.AllPrintedIsWritten | internal/collect/nginx.go:195-203 | any tree of statements can be so written, whatever characters are in its words |
| NginxSyntax.NginxTokenize | internal/collect/nginx.go:131-193 | the index-driven tokeniser yields the specified tokens of every text |
| ConfigReaders.ConfigReader.Read | internal/collect/serverconfig.go:400-437 | a file is given if and only if its name is new, there is room for it, and it is there, not too large and readable; every refusal but a repeat and a directory is noted, once |
| ConfigReaders.ConfigReader.Expand | internal/collect/serverconfig.go:439-462 | it gives exactly the paths the pattern names; it notes a problem if and only if the pattern is malformed or is a plain path that names nothing, and then one, which names the pattern, and gives no path |
| Nginx.ConfigurationRoundTrip | internal/collect/nginx.go:131-264 | any tree of statements without includes, however written, parses to that tree, its empty words dropped |
| Nginx.TreeComesBackExactlyWhen | internal/collect/nginx.go:131-264 | a printed tree comes back word for word if and only if none of its words is empty |
| Nginx.EmptyWordIsLost | internal/collect/nginx.go:131-193 | a directive written with one empty argument is read with none |
| Nginx.WordsComeBack | internal/collect/nginx.go:131-193 | a statement's words come back unchanged if and only if none is empty |
| Nginx.NginxParseBlock | internal/collect/nginx.go:204-264 | the block loop gives the specified nodes, tokens used, error and reader state |
| Nginx.NginxParseFile | internal/collect/nginx.go:109-124 | a file is read at most once and parsed with its includes spliced in, up to the include depth |
| Nginx.FileWithInclude | internal/collect/nginx.go:109-124 | a file with an include in it gives what stands before, then what the files it names say, file after file and as from their own, then what stands behind; each is read once |
| Nginx.IncludeSplices | internal/collect/nginx.go:222-243 | the same in any block, whatever follows |
| Nginx.TooDeepIsNoted | internal/collect/nginx.go:109-112 | below the include depth nothing is added and each file named is noted |
| Nginx.OrphanBlockFails | internal/collect/nginx.go:245-248 | a block that opens without a directive is an error |
| NginxIncludes.IncludeClosure | internal/collect/nginx.go:109-264 | for every include graph, cyclic or not: what was visited is reachable from the main file and the file limit holds; with no error and no problem noted, exactly the reachable names were visited and each regular one read once |
| NginxIncludes.FileExplores | internal/collect/nginx.go:109-124 | parsing a file visits only what it reaches, and with no new problem leaves its includes closed |
| NginxIncludes.RouteStaysInside | internal/collect/serverconfig.go:400-437 | a visited set closed under includes holds the end of every include route that starts in it |
| ApacheSyntax.BreakChangesNothing | internal/collect/apache.go:215-236 | putting a backslash and a line end between two parts of a text leaves its logical lines unchanged if and only if the break is within a line or behind one that does not itself end in a backslash or carriage return |
| ApacheSyntax.BreakBehindBackslash | internal/collect/apache.go:215-236 | behind a backslash a break turns the one logical line into two |
| ApacheSyntax.BreaksChangeNothing | internal/collect/apache.go:215-236 | any number of such breaks at once change nothing |
| ApacheSyntax.BreaksAnywhere | internal/collect/apache.go:215-236 | in a text none of whose lines ends in a backslash or carriage return, every place is such a place |
| ApacheSyntax.ApacheLogicalLines | internal/collect/apache.go:215-236 | the joining loop yields the specified logical lines |
| ApacheSyntax.FieldsRoundTrip | internal/collect/apache.go:238-277 | however a line's fields are written, those are its fields: bare, in quotes of either kind or partly each, with blanks, the other quote and comment signs in them, or empty |
| ApacheSyntax.ApacheFields | internal/collect/apache.go:242-277 | the quote-tracking loop yields the specified fields of every line |
| Apache.ApacheRoundTrip | internal/collect/apache.go:147-277 | any tree of directives and sections without Include and ServerRoot, however written, indented, commented and then broken over any lines at any places, parses to that tree and nothing is left over |
| Apache.AllWrittenIsWell | internal/collect/apache.go:238-277 | any tree whose words stay on one line can be so written |
| Apache.FileWithInclude | internal/collect/apache.go:185-210 | a file that names its server root and includes files relative to it, names in either case: what stands before, between and behind it, and in its place what the files say, file after file and as from their own; each is read once |
| Apache.IncludeSplices | internal/collect/apache.go:185-210 | the same in any section, whatever follows |
| Apache.ServerRootMoves | internal/collect/apache.go:190-193 | a ServerRoot line says nothing itself and is what later includes are relative to |
| Apache.TooDeepIsNoted | internal/collect/apache.go:132-135 | below the include depth nothing is added and each file named is noted |
| Apache.ApacheParser.Block | internal/collect/apache.go:147-213 | the block loop gives the specified nodes, the line that closes it, the reader's state and the server root |
| Apache.ApacheParser.File | internal/collect/apache.go:132-145 | a file is read at most once and parsed with its includes spliced in, up to the include depth |
| Listeners.ProbeTarget | internal/collect/listener.go:193-265 | one socket under every name: what is recorded is the first draw of each certificate; incomplete exactly when some probe was unknown; it stops exactly where the rules say; complete and present means every name was asked |
| Listeners.RecordsWhatWasDrawn | internal/collect/listener.go:193-265 | a certificate is recorded if and only if some probe drew it |
| Listeners.NoneRecordedTwice | internal/collect/listener.go:193-265 | no certificate is recorded under two names |
| Listeners.UnansweredMeansUnknown | internal/collect/listener.go:185-265 | what is counted as unanswered is exactly the unknown probes since the last that found a certificate |
| Listeners.GivingUpTakesUnknowns | internal/collect/listener.go:185-265 | names are given up on if and only if the full number of distinct probes went unknown with no certificate found from the first of them on |
| Listeners.DefiniteEnd | internal/collect/listener.go:193-265 | a socket probed to a definite end has nothing there, or answered under every name, each certificate it presented being recorded |
| ProbeSchedule.EveryRunIsSafe | internal/collect/listener.go:142-177 | in every interleaving no more workers probe than the gate allows, and each slot holds its own target's outcome or nothing |
| ProbeSchedule.NeverStuck | internal/collect/listener.go:142-177 | until the sweep is over some step can be taken |
| ProbeSchedule.EveryStepProgresses | internal/collect/listener.go:142-177 | every step leaves strictly less to do, so every sweep ends |
| ProbeSchedule.SameAsOneByOne | internal/collect/listener.go:142-177 | when it is over the slots are the outcomes of probing one by one, up to where a cancellation stopped it |
| ProbeSchedule.CompleteMeansEverySocketAnswered | internal/collect/listener.go:89-177 | the sweep missed nothing if and only if its targets were the host's own sockets, none was cut or unstarted, and every one was probed to a definite end |
| ProbeSchedule.ServerKnowsEverySocket | internal/collect/listener.go:89-177 | if the server holds a final page naming the listener, every socket of the host was probed, each with anything there answered under every name, and every certificate it presented is on the server |
| ServiceLog.Log.constructor | internal/service/log.go:74-109 | opening appends to what is there, rotating first at the cap; nothing already written is lost beyond what rotation drops |
| ServiceLog.Log.Rotate | internal/service/log.go:111-130 | rotation keeps the whole live file as the older one, and with it at least the cap's worth of the end of everything written |
| ServiceLog.Log.Printf | internal/service/log.go:132-170 | a repeat within the window changes no file and is counted; anything else becomes a line with that count; what is kept is always the end of everything written and at least the cap of it; the live file stays under the cap between calls; no line is added if and only if the message is the last one and less than the window has passed since its line; a count is of its own line's message if and only if the message is the last one written |
| ServiceLog.KeptBackExactlyWhen | internal/service/log.go:132-153 | over any run of calls: a call adds no line if and only if it says what the latest line says, less than the window after it, a window of zero being thirty minutes and a negative one none; any other call adds its own |
| ServiceLog.CountsAreOwnExactlyWhen | internal/service/log.go:132-153 | over any run of calls, every count stands on a line of the message it counts if and only if every row of repeats is ended by that same message |
| ServiceLog.CountOnAnothersLine | internal/service/log.go:147-153 | of "a", "a", "b" within the window the second line is "b (and 1 more like it)", a count of "a" |
| ServiceLog.Log.Write | internal/service/log.go:155-170 | with any fault, the bytes on disk are exactly the concatenated parts of lines that got there |
| ServiceLog.Log.Close | internal/service/log.go:186-203 | closing an open log writes the pending count on a line of its own, so no call is unaccounted for; a log already lost keeps its count |
| ServiceLog.Log.Conservation | internal/service/log.go:132-203 | calls equal lines plus all counts plus what is still kept back |
| ServiceLog.LinesPlusCounts | internal/service/log.go:132-170 | the calls a ledger of lines accounts for number its lines and its counts together |
| StateDirs.StateDir.WriteAtomic | internal/state/state.go:305-338 | whatever step fails or dies, the file holds its old contents or all of the new, and no other changes; success means the new |
| StateDirs.StateDir.LoadOrCreateKey | internal/state/state.go:131-194 | a key file present is never rewritten; a key is returned only once it is in place, and it is the one in place |
| StateDirs.KeyIsStable | internal/state/state.go:131-194 | over any sequence of runs that may each die anywhere, once one has returned a key every later load that succeeds returns it |
| StateDirs.KeyFileStays | internal/state/state.go:131-194 | once there is a key file, no run ever changes it |
| StateDirs.SavedFileIsWhole | internal/state/state.go:259-338 | after a save that succeeded, the file always holds, whole, what it or some later save wrote |
| StateDirs.EveryFileIsWhole | internal/state/state.go:259-338 | over any sequence of runs that may each die anywhere, before any save succeeded or after, every file but the key holds, whole, what it held at first or what some save wrote, and is missing only if it always was |

## Left out

- Cryptography, X.509, PEM, DER and PKCS#12: which bytes are a certificate and which signatures verify are parameters.
- CheckSignature is deterministic and a certificate is a value told apart by its fields; two with one DER are one. SHA-256 is taken as injective where the code compares digests, so equal PEM is equal certificates.
- Integers are unbounded: Go's int is 64 bits and no count here can reach it. An RSA exponent's cost is computed without overflow.
- The network, JSON and HTTP client: a page is accepted, or it is not, or it is accepted and the agent never hears. Retries inside the client are not modelled.
- The sweeps' default roots, glob expansion, key siblings, file modes and owners: what a root matches and where a key lies are parameters. A file's contents do not change between two paths that lead to it.
- Sweeps.Sweep.Walk: models the walks of both the file and the keystore sweep, whose code is the same but for the name test, which is a parameter.
- Sweeps.Sweep.Examine: what is at an absolute path is a parsed reading; that a keystore's bytes give that reading is JavaKeystores.JavaKeystore, and PKCS#12 keystores are not part of this model.
- Errors are told apart by what they are about; their wording is left out.
- NginxIncludes.IncludeClosure: assumes that two paths with one absolute form name the same directory for relative includes, which Go's path functions guarantee; the paths themselves are uninterpreted.
- The closure of Apache's includes: the parser with its includes is modelled, and the closure theorem is stated for nginx only, whose include directory does not depend on parser state.
- ApacheSyntax.ApacheLogicalLines and the other text parsers: work on Unicode characters; bytes that are not UTF-8 are not modelled. strings.Split and strings.TrimRight are functions.
- The walk from directives to virtual hosts, certificate pairing, server names and key references: short branching over the trees proved here.
- ServiceLog.Log.Printf: the message arrives formatted and the time is a parameter. Its mutex is not modelled: calls come one after another. A line's text is what reached the disk, which is nothing when the file is lost.
- StateDirs.StateDir.WriteAtomic: the process may die anywhere, but power loss and two agents over one directory are not modelled; the code promises nothing about them for the key. Permissions and ownership change nothing a reader sees.
- Listeners.ProbeTarget: verdicts are a parameter; TLS handshakes and socket tables are not modelled, nor is the de-duplication of sockets.
- ProbeSchedule.CompleteMeansEverySocketAnswered: whether the targets were the host's own and whether they were cut to the limit are parameters.
- IIS, operating-system stores, Windows services and access control, the tray, the outbound guard and the scheduler loop.
