# Diplomat in Dafny

Diplomat is a SystemVerilog toolset: a language server (JSON-RPC transport, dispatch loop, document
cache, project tree, diagnostics), a source index and a formatter. This project models the parts of it
that keep state, walk graphs or do column arithmetic, and proves what they are for.

Run `dafny verify dfyconfig.toml` to check everything.

## Layout

| file | what it models |
|---|---|
| `Wrappers.dfy` | optional values, the least element of a set, decimal numerals |
| `JsonFraming.dfy` | JSON printing, the outbox framer and the inbox scanner |
| `LengthFraming.dfy` | a client that reads by `Content-Length` |
| `RpcTransport.dfy` | the queues, the lock and the waiting as a state machine over all interleavings, and the two stream threads as a class |
| `LspServer.dfy` | the dispatch loop: lifecycle, callbacks, progress tokens, replies |
| `ServerBehaviour.dfy` | what one message from the client brings about, told without the steps of the loop |
| `DocumentCache.dfy` | the eight containers of the blackbox cache and their four operations |
| `ProjectTree.dfy` | the recursive project build and the worklist over module dependencies |
| `ProjectLayout.dfy` | for which distributions of modules over files the recursive build is right |
| `DiagnosticClient.dfy` | the diagnostics table, its publication, and what the editor shows |
| `Spacing.dfy` | tokens with trivia, columns, `indent` |
| `DeclarationFormat.dfy` | the two passes that align `logic` declarations |
| `SourcePositions.dfy` | positions and ranges, the ordered position map |
| `InnermostScope.dfy` | the search for the scope around a position, in a tree and in a file |
| `ScopeTree.dfy` | scopes with parent links, aliases and paths |
| `IndexVisitor.dfy` | the visitor's scope stack and its aliasing of duplicated scopes |
| `DesignIndex.dfy` | when a whole design can be indexed, and what the index then holds |
| `DesignOutline.dfy` | how the walk of a design ends, computed from the design alone |
| `DesignExamples.dfy` | a design that is refused and one of which a scope is lost |
| `PlainDesign.dfy` | designs without shared scopes, whose index is the design itself |

Each component has a value for its state, functions for its operations, and a class whose methods change
fields in the way the program does and are proved equal to those functions; the theorems are about the
functions and their runs. A C++ exception is a value of a result type or an error predicate. Paths, URIs,
symbols and parsed files are opaque inputs.

## Where the code and its promises part

- **Framing.** The scanner takes any quote after a backslash for an escaped one, so the closing quote of a
  string that ends in a backslash is missed. A stream comes back as it was sent exactly when in each message
  the braces that the scanner still counts are balanced (`FramingReadBackExactly`). Messages without such
  strings always qualify, those with an odd number of them never do; with an even number the flag turns
  back, and the braces inside the strings in between decide.
- **Waiting.** Closing sets its flag and notifies without the lock. A consumer that has found nothing and is
  about to sleep misses the notification and sleeps on; nobody else does (`AsleepExactly`). No message is ever
  slept on (`NoMessageIsSleptOn`).
- **Line ends.** With the newline that the transport prints after each frame by default, a client that goes by
  `Content-Length` stops at the second message; without it, it reads everything (`LengthReadBackExactly`). The
  server turns it off on standard input and output only; over TCP it stays on.
- **Cache.** Recording a file keeps the tables coherent exactly when the file was processed before; recording
  an unknown one prepares `.at` failures. Processing a new or modified file for the project adds it to the
  project files but does not publish its modules (`ProcessPublishesExactly`), because they are published only
  for files that are already known. The branch that would publish them while parsing is dead.
- **Project build.** Recording a file publishes all its modules, and modules already published are not
  followed. A reached module that shares its file with another reached one can therefore lose what it needs
  (`SharedFileLosesModule`), and whether it does may hang on the order of one dependency list (`OrderDecides`).
  The build is exact when following either module of a file is enough, and so without shared files. Whatever the
  modules need and in whatever order, it is exact if and only if modules share files only where every other file
  is the root's, and what a file declares is found there or in the root's (`LayoutIsSafeExactly`).
- **Formatter.** In a block without packed dimensions, a signed declaration of the longest type asks for a
  negative spacing, which an assertion refuses; with a packed dimension its name is one column too far right.
  Names align exactly when the offsets agree, semicolons exactly when all or none of the declarations use
  some but not all of the unpacked dimensions of the block. Comments in front of tokens other than the first
  are dropped, except those inside the expressions of dimensions.
- **Diagnostics.** Renaming a document onto one that already has an entry loses the renamed document's
  diagnostics; renaming loses none in any other case. The empty entry left at the old name makes renaming back and
  forth such a case (`RenamingBackLoses`). A follow-up of an ignored report is attached to the report before it. The pointer to the last report is not set in a new client and is lost with its entry; a follow-up
  that comes before a new report reads it all the same (`FollowUpOfNewClient`, `PromptFollowUpsAreDefined`).
- **Index.** Unique sibling names do not keep the visitor from an alias error (`UniqueNamesMayClash`), nor from
  losing a scope silently (`BlocksMayBeLost`), because instances of one body share a scope. The walk succeeds and
  every scope can be found under its name exactly when a name means one source range in each shared place
  (`IndexedExactly`). The first name that means two decides: the walk stops there exactly when the text is covered
  and the name was met for a covered text before, and otherwise something is lost (`WalkEndsExactly`). The scope
  lookup gives the smallest scope exactly when children hold all narrower text (`LookupNarrowestExactly`); instances
  of one module with different generate blocks below different parents break this (`ParametersDecide`). The
  position lookup equals a scan exactly when no two records overlap, and a printed path resolves to its scope exactly
  when no name on it contains a dot.

## Model

| member | source | states |
|---|---|---|
| JsonFraming.StringLiteralExact | lsp-server/rpc/rpc_transport.cpp:98-106 | a printed string leaves the scanner's string flag turned exactly when its content ends in a backslash; its braces count exactly when the flag was turned before |
| JsonFraming.FieldsFollow | lsp-server/rpc/rpc_transport.cpp:83-125 | scanning printed members, nested to any depth, ends early, or at the depth and flag, that the characters read outside strings determine |
| JsonFraming.CapturedExactly | lsp-server/rpc/rpc_transport.cpp:63-148 | after any header an object is captured whole, from its own brace to its own brace, if and only if the braces the scanner counts balance; then the scan stops right after it |
| JsonFraming.HeaderIsPreamble | lsp-server/rpc/rpc_transport.cpp:187-193 | the printed header, whatever the length, holds no brace and ends its line, so that the next brace opens a message |
| JsonFraming.HeaderText | lsp-server/rpc/rpc_transport.cpp:187-193 | the header is the length field, the content type and an empty line |
| JsonFraming.FramesSnoc | lsp-server/rpc/rpc_transport.cpp:185-203 | each turn of the outbox appends one frame to those printed before |
| JsonFraming.FramingReadBackExactly | lsp-server/rpc/rpc_transport.cpp:63-210 | reading everything the outbox printed, with or without line ends, gives the texts of all messages in order and nothing else if and only if every message is balanced for the scanner |
| JsonFraming.FramingRoundTrip | lsp-server/rpc/rpc_transport.cpp:63-210 | objects with arbitrary nesting, braces and escapes in strings, none ending in a backslash, all come back in order |
| JsonFraming.OddBackslashesBreakTheStream | lsp-server/rpc/rpc_transport.cpp:98-99 | one message with an odd number of strings that end in a backslash is enough for the stream not to come back |
| JsonFraming.ResumesAfterCut | lsp-server/rpc/rpc_transport.cpp:83-95 | a stream cut anywhere, inside a header or a message too, is read from the first message whose header is not cut to its end on, with nothing made up |
| LengthFraming.HeaderReadBack | lsp-server/rpc/rpc_transport.cpp:187-193 | in front of any text the header ends where the text starts, and its length field reads back as the number printed |
| LengthFraming.LengthReadBackExactly | lsp-server/rpc/rpc_transport.cpp:185-203 | a client that reads by length gets the text of every message in order, whatever its strings hold, if and only if no newline follows the frames or there is at most one message |
| TransportQueues.StepConserves | lsp-server/rpc/rpc_transport.cpp:151-275 | every step of poller, senders, consumers, close and abort, under the lock or not, keeps: delivered then inbox is received, and printed then outbox is sent; no step takes from an empty queue |
| TransportQueues.RunConserves | lsp-server/rpc/rpc_transport.cpp:151-275 | over every interleaving of any length, what was delivered, then the inbox, is what the poller captured and found not empty, and what is printed, then the outbox, is what the senders handed over |
| TransportQueues.HistoryExactly | lsp-server/rpc/rpc_transport.cpp:151-236 | over every run, the captured messages that are not empty are received and the messages handed over are sent, all of them in the order of the run |
| TransportQueues.EmptyExactly | lsp-server/rpc/rpc_transport.cpp:155-157 | the values thrown away are those that print as null, {} or [] |
| TransportQueues.FlushingEmptiesOutbox | lsp-server/rpc/rpc_transport.cpp:176-210 | as many rounds of the outbox thread as there are messages print them all and change nothing else |
| TransportQueues.ClosedExactly | lsp-server/rpc/rpc_transport.cpp:151-224 | the medium is closed if and only if the input ended or close was called, aborted if and only if abort was |
| TransportQueues.GetTakesOldest | lsp-server/rpc/rpc_transport.cpp:239-257 | a get with messages there hands over the oldest, even when the medium is closed after its first test |
| TransportQueues.GetWaitsForMessage | lsp-server/rpc/rpc_transport.cpp:239-275 | a get with nothing there sleeps, and the next message goes to it |
| TransportQueues.ClosedGetIsEmpty | lsp-server/rpc/rpc_transport.cpp:258-266 | a get that has found nothing and then the medium closed comes back with nothing |
| TransportQueues.SpuriousWakeUp | lsp-server/rpc/rpc_transport.cpp:258-259 | a thread that wakes up by itself goes back to sleep |
| TransportQueues.NothingAfterClosing | lsp-server/rpc/rpc_transport.cpp:239-275 | a get begun after close or abort delivers nothing to its consumer, whatever the other threads do |
| TransportQueues.NoMessageIsSleptOn | lsp-server/rpc/rpc_transport.cpp:246-259 | over every run, whenever a consumer sleeps with a message in the inbox, a notification is still to come; messages are queued under the lock |
| TransportQueues.AsleepExactly | lsp-server/rpc/rpc_transport.cpp:212-259 | after the last notification of a closed medium a waiter stays asleep if and only if it had tested the condition before that notification and blocks after it; it happens to one waiter at most |
| TransportQueues.OthersReturn | lsp-server/rpc/rpc_transport.cpp:239-275 | on a closed medium every other consumer can come back without a further notification |
| TransportQueues.LostNotification | lsp-server/rpc/rpc_transport.cpp:219-224 | an interleaving from the start in which close falls between test and sleep, and get sleeps on a closed medium |
| TransportQueues.PeerReadsWhatWasSent | lsp-server/rpc/rpc_transport.cpp:63-275 | whatever the interleaving, a peer that reads the output finds exactly the messages handed over and not waiting in the outbox, in order |
| RpcTransport.RpcPipeTransport.ReadJson | lsp-server/rpc/rpc_transport.cpp:63-148 | the character loop captures what the scanner function says; a text the parser refuses is dropped with all that is buffered behind it |
| RpcTransport.RpcPipeTransport.PollInbox | lsp-server/rpc/rpc_transport.cpp:151-173 | the poller queues the well-formed non-empty messages in order, then an exit request, and closes the medium |
| RpcTransport.QueuedExactly | lsp-server/rpc/rpc_transport.cpp:155-163 | of the texts read exactly the empty ones are left out, wherever they stand |
| RpcTransport.RpcPipeTransport.DrainOutbox | lsp-server/rpc/rpc_transport.cpp:176-210 | emptying the outbox prints the frames of its messages in order behind what was printed |
| RpcTransport.RecoversFromIllFormed | lsp-server/rpc/rpc_transport.cpp:115-123 | after an ill-formed text, wherever the flush cuts into the frames behind it, all messages whose frames start behind the cut are read, in order and nothing else |
| RpcTransport.Transfer | lsp-server/rpc/rpc_transport.cpp:151-210 | two transports back to back: the receiver's inbox holds the sender's messages in order, then the exit request |
| CacheModel.PublishedKeys | lsp-server/diplomat/src/diplomat_document_cache.cpp:115-121 | publishing the blackboxes of a file adds exactly their names to the project table, each leading to a blackbox of that name |
| CacheModel.PublishedAll | lsp-server/diplomat/src/diplomat_document_cache.cpp:115-121 | afterwards each name of the file leads to the blackbox of this file |
| CacheModel.RecordKeepsCoherenceExactly | lsp-server/diplomat/src/diplomat_document_cache.cpp:101-123 | recording never fails on coherent tables, and leaves them coherent if and only if the file was known |
| CacheModel.RecordingUnknownFile | lsp-server/diplomat/src/diplomat_document_cache.cpp:101-123 | after recording a file for the project, recording it again or removing it fails if and only if it was unknown before |
| CacheModel.RemoveKeepsCoherence | lsp-server/diplomat/src/diplomat_document_cache.cpp:277-313 | removing a file, known or not, fails nowhere and keeps all tables coherent |
| CacheModel.RemoveForgetsExactlyTheFile | lsp-server/diplomat/src/diplomat_document_cache.cpp:277-313 | removal leaves no trace of the file or its blackboxes in any of the eight tables, and everything else in them stays as it was |
| CacheModel.RemoveKeepsSharedNames | lsp-server/diplomat/src/diplomat_document_cache.cpp:297-299 | a module name stays in the workspace table if and only if another file declares it |
| CacheModel.ProjectBranchIsDead | lsp-server/diplomat/src/diplomat_document_cache.cpp:228-229 | when a file is parsed it is never among the project files, so that branch is not taken |
| CacheModel.ReprocessedFile | lsp-server/diplomat/src/diplomat_document_cache.cpp:173-253 | after parsing, the file is known with exactly the blackboxes found, its project membership is kept if it was known and as asked if not, and the other files are untouched |
| CacheModel.ModifiedIsParsed | lsp-server/diplomat/src/diplomat_document_cache.cpp:189-253 | a file that is new or was written after its stamp is parsed: it has exactly the blackboxes found, stored at their addresses, and the new stamp |
| CacheModel.CurrentIsKept | lsp-server/diplomat/src/diplomat_document_cache.cpp:189-206 | a file not written since its stamp, or missing, is not parsed: blackboxes, stamps, both file tables and the workspace table stay |
| CacheModel.ProcessKeepsCoherence | lsp-server/diplomat/src/diplomat_document_cache.cpp:173-253 | processing keeps the tables coherent for missing, current, modified and new files, with any number of modules |
| CacheModel.ProcessPublishesExactly | lsp-server/diplomat/src/diplomat_document_cache.cpp:173-253 | after processing a file for the project all its modules are published if and only if the file was current or holds none |
| CacheModel.EveryRunIsCoherent | lsp-server/diplomat/src/diplomat_document_cache.cpp:17-313 | over every run of process, record of a known file, remove and clear: both file tables are inverse, module tables lead to stored blackboxes filed under their names, no workspace set is empty, and project files are among workspace files, which are the processed files |
| CacheModel.LookupSound | lsp-server/diplomat/src/diplomat_document_cache.cpp:125-140 | a module is found if and only if some stored blackbox has the name, and the project's goes before others; what is found is stored, so named, and belongs to a known file |
| DocumentCache.DiplomatDocumentCache.BindBbAndPath | lsp-server/diplomat/src/diplomat_document_cache.cpp:17-34 | binding appends to the file's list and sets the way back, or resets the list when there is no blackbox |
| DocumentCache.DiplomatDocumentCache.ClearProject | lsp-server/diplomat/src/diplomat_document_cache.cpp:69-73 | clearing empties the two project tables and keeps the rest |
| DocumentCache.DiplomatDocumentCache.RecordFile | lsp-server/diplomat/src/diplomat_document_cache.cpp:101-123 | the loop over the file's blackboxes does what the recording function says |
| DocumentCache.DiplomatDocumentCache.RemoveFile | lsp-server/diplomat/src/diplomat_document_cache.cpp:277-313 | erasing the blackboxes one by one, then the file, gives the tables of the removal function |
| DocumentCache.DiplomatDocumentCache.ProcessFile | lsp-server/diplomat/src/diplomat_document_cache.cpp:173-253 | the method gives the tables of the processing function and keeps them coherent |
| DocumentCache.DiplomatDocumentCache.GetBbByModule | lsp-server/diplomat/src/diplomat_document_cache.cpp:125-140 | the project table is asked before the workspace table |
| Dependencies.ClosedIsReached | lsp-server/diplomat/src/diplomat_lsp_binds.cpp:696-714 | a set of reached known modules, closed under needing, holds every known module reached from the seeds |
| ProjectFileList.ProjectTreeFromModule | lsp-server/diplomat/src/diplomat_lsp_binds.cpp:683-716 | however the pending set is emptied, and on cyclic graphs too, the loop ends with exactly the target's file and the files of all known modules reached through dependencies, one entry a module |
| ProjectBuild.BuildIsSound | lsp-server/diplomat/src/diplomat_lsp.cpp:405-427 | from a cleared project only files of modules reached from the root are added, on every graph |
| ProjectBuild.BuildIsExact | lsp-server/diplomat/src/diplomat_lsp.cpp:405-427 | the project files are exactly those of the known modules reached, when what a reached module needs is declared with it or needed by each reached module of its file |
| ProjectBuild.UnshadowedIsSubsumed | lsp-server/diplomat/src/diplomat_lsp.cpp:416-424 | that is so when no two reached modules share a file |
| ProjectBuild.OrderDecides | lsp-server/diplomat/src/diplomat_lsp.cpp:419-424 | two caches with the same needs, different only in the order of one dependency list: the build is complete for one and not for the other |
| ProjectBuild.OneModulePerFileIsUnshadowed | lsp-server/diplomat/src/diplomat_lsp.cpp:416-424 | at most one module per file is enough for no two reached modules to share one |
| ProjectBuild.OwnFileStopsTheBuild | lsp-server/diplomat/src/diplomat_lsp.cpp:416-424 | when all that a module needs is in its own file, nothing but that file is added, whatever those modules need |
| ProjectBuild.SharedFileLosesModule | lsp-server/diplomat/src/diplomat_lsp.cpp:421-424 | three modules in two files for which the build misses a reached file |
| ProjectLayout.LayoutIsSafeExactly | lsp-server/diplomat/src/diplomat_lsp.cpp:405-427 | for a given distribution of modules over files, the build finds exactly the files reached, whatever the modules need and in whatever order, if and only if every module declared in a module's file is looked up there or in the root's file, and every module at all is in a file that two modules share or in the root's |
| ProjectLayout.AddedFollows | lsp-server/diplomat/src/diplomat_lsp.cpp:405-427 | of each file added, on every graph, some module has all it needs in the project |
| ProjectBuild.BuildAgreesWithWorklist | lsp-server/diplomat/src/diplomat_lsp.cpp:405-427 | under the condition of exactness the recursive build and the worklist select the same files |
| ProjectBuild.ProjectTree.AddModuleToProjectTree | lsp-server/diplomat/src/diplomat_lsp.cpp:405-427 | the recursion ends on every, even cyclic, graph and gives the tables of the build function |
| ProjectBuild.ProjectTree.ComputeProjectTree | lsp-server/diplomat/src/diplomat_lsp.cpp:375-386 | the build starts from a cleared project unless the tree is kept, and is skipped without a top level |
| Spacing.IndentIdempotent | formatter/spacing_manager.cpp:43-101 | indenting an indented token again changes nothing |
| Spacing.IndentKeepsVisible | formatter/spacing_manager.cpp:67-97 | comments and newlines stay in order, and a newline is added if and only if the token did not start a line |
| Spacing.IndentColumn | formatter/spacing_manager.cpp:43-101 | wherever the token before ended, the indented token starts at exactly the requested column |
| Spacing.IndentEndsLine | formatter/spacing_manager.cpp:43-110 | in front of an indented token stand, last of all, a line end and the indentation |
| Spacing.SpacingManager.Indent | formatter/spacing_manager.cpp:43-101 | the loop over the trivia with its two flags builds what the indenting function says |
| Spacing.SpacingManager.SubLevel | formatter/spacing_manager.hpp:34-34 | leaving levels stops at zero |
| Dimensions.RawTextOfSpaced | formatter/spacing_manager.cpp:379-404 | the raw text is the text itself when tokens are separated by single blanks at most |
| Dimensions.AlignedExprWidth | formatter/spacing_manager.cpp:113-119 | an expression that fits is padded on the left to its size, less what a leading blank took |
| Dimensions.WidthLaw | formatter/spacing_manager.cpp:208-284 | for any number of dimensions and any recorded sizes, emitted width plus remainder is first alignment plus 3 and both sizes per recorded dimension, plus one if only some are used, plus one if the alignment is zero and there is a bracket, less the blanks in front of expressions; one less than the alignment if no dimension is recorded |
| Dimensions.AlignDimension | formatter/spacing_manager.cpp:208-284 | the loop rewrites the dimensions in place to the aligned ones and returns the remainder, with no subtraction below zero when pass-one sizes bound every expression |
| Dimensions.WidenedFits | formatter/format_DataDeclaration.cpp:757-810 | after measuring, every measured dimension fits, bit selects despite the halving, and those that fitted still fit |
| Dimensions.DimensionSyntaxToVector | formatter/format_DataDeclaration.cpp:757-810 | the measuring loop computes the widened sizes |
| Dimensions.RawTextIsSpaced | formatter/spacing_manager.cpp:379-404 | the raw text is what prints with single spaces for blanks and without comments |
| Declarations.TokensToVector | formatter/format_DataDeclaration.cpp:725-740 | the loop computes the maximum per modifier slot |
| Declarations.BlockIsCovered | formatter/format_DataDeclaration.cpp:557-571 | pass one bounds every declaration of the block in every slot and dimension, and the type width is reached by one of them |
| Declarations.WidthsAreLargest | formatter/format_DataDeclaration.cpp:557-571 | pass one takes no more room than needed: in every slot each size is the largest of the block, reached by some declaration, and so are the numbers of slots, the modifier widths and the name width |
| Declarations.KeywordAligned | formatter/format_DataDeclaration.cpp:214-240 | the type keyword starts at one column whatever modifiers a declaration has |
| Declarations.FormattableExactly | formatter/format_DataDeclaration.cpp:294-305 | no negative spacing is asked for if and only if the block has a packed dimension or the declaration is not a signed one of the longest type |
| Declarations.NameStartsAt | formatter/format_DataDeclaration.cpp:200-252 | the name starts at the block's column plus the declaration's offset |
| Declarations.NamesAlignExactly | formatter/format_DataDeclaration.cpp:200-252 | two names of a block, signed or not, are aligned if and only if their offsets are equal |
| Declarations.PlainBlockAligned | formatter/format_DataDeclaration.cpp:200-252 | in every block of unsigned logic declarations all names start at one column, for any modifiers and any number of packed dimensions each |
| Declarations.DimensionlessBlockFormattable | formatter/format_DataDeclaration.cpp:294-305 | a block without packed dimensions can be formatted if and only if nothing in it is signed |
| Declarations.SemicolonsAlignExactly | formatter/format_DataDeclaration.cpp:255-259 | the semicolons of a plain block are aligned if and only if all or none of its declarations use some but not all unpacked dimensions |
| Declarations.SignedNamesShift | formatter/format_DataDeclaration.cpp:294-310 | a signed declaration of the longest type with a packed dimension has its name one column right of every unsigned one |
| Declarations.LeadingBlankIsSlack | formatter/spacing_manager.cpp:379-404 | a blank in front of an expression is measured and not printed |
| Declarations.LeadingBlankMovesTheName | formatter/spacing_manager.cpp:237-257 | with such a blank in any packed dimension of a declaration its name starts one column further left |
| Declarations.MixedBlockMisaligned | formatter/format_DataDeclaration.cpp:294-310 | a block of two declarations whose names are not aligned |
| Declarations.DeclarationFormatter.StoreFormat | formatter/format_DataDeclaration.cpp:557-571 | a declaration of a kind that differs from that of the blocks closes the current one; then it is queued, and the widths stay those of the queue |
| Declarations.DeclarationFormatter.SwitchBlockKind | formatter/format_DataDeclaration.cpp:691-698 | the first node ever met sets the kind, which nothing resets; a node that differs from it, or any node when forced, closes the block |
| Declarations.DeclarationFormatter.SplitBlock | formatter/format_DataDeclaration.cpp:147-164 | the waiting block is formatted if and only if two line ends stand in front of the declaration |
| FormatKeeps.StartsBlockExactly | formatter/format_DataDeclaration.cpp:147-164 | a declaration starts a block if and only if two line ends at least stand in front of its first token |
| Declarations.DeclarationFormatter.FormatDataType | formatter/format_DataDeclaration.cpp:272-312 | the data type is padded as the formatting function says, and the gap to the name is returned |
| Declarations.DeclarationFormatter.Format | formatter/format_DataDeclaration.cpp:200-262 | one declaration is padded as the formatting function says, or fails when a spacing would be negative |
| Declarations.DeclarationFormatter.ProcessPendingFormats | formatter/format_DataDeclaration.cpp:166-176 | all waiting declarations are formatted with the widths of their own block, and a new block starts |
| Declarations.DeclarationFormatter.Handle | formatter/format_DataDeclaration.cpp:122-126 | an empty line in front of a declaration, or its kind, closes the block before it, which is formatted once, with its own widths |
| FormatKeeps.TokensArePreserved | formatter/format_DataDeclaration.cpp:200-262 | formatting changes no token text and no order |
| FormatKeeps.CommentsKeptExactly | formatter/spacing_manager.cpp:15-28 | the comments that survive are, in order and as they were, exactly those of the first token and those inside the dimension expressions |
| FormatKeeps.BlockIsKept | formatter/format_DataDeclaration.cpp:166-176 | of a block every declaration is printed in its place with all its tokens, unless its spacing is negative |
| FormatKeeps.PlainBlockIsPrinted | formatter/format_DataDeclaration.cpp:166-240 | a block of plain declarations is printed whole, with all names in one column |
| ServerModel.ActKeepsInv | lsp-server/lsp/lsp.cpp:322-380 | each thing a handler may do (send a request, draw, begin, report and end a token) keeps the invariant |
| ServerModel.CallbacksAreReady | lsp-server/lsp/lsp.cpp:104-119 | at each loop head every bound callback has its stored arguments |
| ServerModel.ResponseKeepsInv | lsp-server/lsp/lsp.cpp:461-485 | after a response, by success, client error or exception, neither table knows the request, even if the callback sent new requests |
| ServerModel.RoundKeepsInv | lsp-server/lsp/lsp.cpp:385-523 | one turn of the loop keeps: equal callback and argument ids, the state of every token, one run per callback, and the lifecycle |
| ServerModel.EveryRunIsOrderly | lsp-server/lsp/lsp.cpp:382-524 | over every run with fresh ids: each token's messages are nothing, or a begin, then begins and reports, then at most one end and nothing more; no callback runs twice; the tables match; only initialize runs before initialisation and only exit after shutdown |
| ServerModel.AtMostOneReply | lsp-server/lsp/lsp.cpp:382-524 | every input causes at most one reply, with its own id; without id it causes none |
| ServerModel.RequestsAnsweredExactly | lsp-server/lsp/lsp.cpp:434-522 | a bound request with a string or number id gets exactly one result or error with that id, and no reply only if a server-side exception was raised |
| ServerModel.HandledExactly | lsp-server/lsp/lsp.cpp:59-75 | a call with an id runs its handler if and only if it is not too early, too late or unbound; otherwise the matching error is the reply and nothing else changes |
| ServerBehaviour.CallExactly | lsp-server/lsp/lsp.cpp:182-239 | a request without id is ignored; a call whose commands are all accepted runs them one after the other, then the actions of the last one, and is answered, if it has an id, by its outcome, through a notification by null |
| ServerBehaviour.RefusedCallExactly | lsp-server/lsp/lsp.cpp:182-239 | when a command is refused, those before it have run, nothing else happens, and the answer is the error |
| ServerBehaviour.NotificationsRun | lsp-server/lsp/lsp.cpp:434-452 | a notification that is not refused runs and is not answered |
| ServerBehaviour.NothingToDo | lsp-server/lsp/lsp.cpp:385-433 | an empty message, or one with neither id nor method, does nothing; an unusable id is answered without an id |
| ServerBehaviour.ResponseExactly | lsp-server/lsp/lsp.cpp:455-522 | a response to no request is answered by an error; an error response ends the request; consent makes a token known if the client shows progress; a custom callback does its actions, and only an error of it is answered |
| ServerBehaviour.IdTextReadsBack | lsp-server/lsp/lsp.cpp:407-433 | a number as id is looked up under its numeral |
| ServerBehaviour.ActionsAskExactly | lsp-server/lsp/lsp.cpp:309-344 | the requests and notifications sent are those that the actions ask for, all of them in order |
| ServerBehaviour.ProgressExactly | lsp-server/lsp/lsp.cpp:346-380 | of what actions want to tell about a token, exactly the part from the first begin to the first end is told, and nothing about a token that is not known |
| ServerBehaviour.FlagsExactly | lsp-server/include/lsp.hpp:144-146 | the lifecycle flags are set if and only if some action set them |
| ServerBehaviour.BindingsExactly | lsp-server/lsp/lsp.cpp:322-344 | every request sent has its own callback and arguments, and those before keep theirs |
| ServerBehaviour.ProgressReachesClient | lsp-server/lsp/lsp.cpp:121-128 | from the request to create a token over the consent of the client to begin, report and end: all three arrive |
| ServerModel.SilentOnlyOnServerSide | lsp-server/lsp/lsp.cpp:182-217 | a call ends without result or error only when the handler at the end of the command chain raised a server-side exception and the lifecycle let it run |
| ServerModel.NoMoreRepliesThanInputs | lsp-server/lsp/lsp.cpp:382-524 | over a run there are never more replies than inputs |
| LspServer.BaseLSP.Call | lsp-server/lsp/lsp.cpp:182-239 | filter, dispatch and nested command execution compute the invocation function |
| LspServer.BaseLSP.RunGuarded | lsp-server/lsp/lsp.cpp:32-38 | running a callback frees both tables whatever happens in it |
| LspServer.BaseLSP.HandleMessage | lsp-server/lsp/lsp.cpp:407-522 | the branches on id, method and callback, and the reply, compute the round function |
| LspServer.BaseLSP.HandleInput | lsp-server/lsp/lsp.cpp:385-405 | one turn of the loop, idle when nothing came, computes the round function and keeps the invariant |
| LspServer.BaseLSP.Serve | lsp-server/lsp/lsp.cpp:382-524 | the loop computes the state after the run |
| DiagnosticModel.RemapLosesExactly | lsp-server/diplomat/src/diagnostic_client.cpp:192-216 | renaming keeps the number of diagnostics if and only if the new name has no entry or there is nothing to move, and touches no other entry |
| DiagnosticModel.RenamedExactly | lsp-server/diplomat/src/diagnostic_client.cpp:179-247 | renaming keeps every diagnostic and follow-up in number, order and text, changes only mentions of the old name, moves the entry, and leaves an empty one |
| DiagnosticModel.RenamedOntoExactly | lsp-server/diplomat/src/diagnostic_client.cpp:192-216 | onto a taken name the moved diagnostics are dropped and those of the name stay |
| DiagnosticModel.RenamingBackLoses | lsp-server/diplomat/src/diagnostic_client.cpp:192-247 | renaming back and forth loses the diagnostics |
| DiagnosticModel.EmitSynchronises | lsp-server/diplomat/src/diplomat_lsp.cpp:195-207 | publishing the entries in any order makes the editor show exactly the server's diagnostics, and dropping empty entries afterwards loses nothing |
| DiagnosticModel.ApplyTracks | lsp-server/diplomat/src/diagnostic_client.cpp:11-178 | report, follow-up, clear, remap, rebuild and emit all keep: key is entry URI, and every URI the editor shows is a key |
| DiagnosticModel.EveryRunSynchronises | lsp-server/diplomat/src/diagnostic_client.cpp:11-247 | over every interleaving that invariant holds, and right after an emission the editor shows what the server holds |
| DiagnosticModel.HeldExactly | lsp-server/diplomat/src/diagnostic_client.cpp:11-178 | over every run without renaming, the diagnostics held for a document are those reported for it since the last new client or clearing, in order |
| DiagnosticModel.RebuildForgets | lsp-server/diplomat/src/diagnostic_client.cpp:18-24 | a new client knows the documents of the one before and none of its diagnostics |
| DiagnosticModel.NothingShownAfter | lsp-server/diplomat/src/diplomat_lsp.cpp:195-221 | after a new client or a clearing and an emission at once, nothing is shown |
| DiagnosticClient.LSPDiagnosticClient.constructor | lsp-server/diplomat/src/diagnostic_client.cpp:11-26 | a new client has an empty entry for each document of the previous one |
| DiagnosticClient.LSPDiagnosticClient.ClearDiagnostics | lsp-server/diplomat/src/diagnostic_client.cpp:28-32 | every entry stays, without its diagnostics |
| DiagnosticClient.LSPDiagnosticClient.CleanupDiagnostics | lsp-server/diplomat/src/diagnostic_client.cpp:39-46 | exactly the entries without diagnostics go |
| DiagnosticModel.FollowUpsAttach | lsp-server/diplomat/src/diagnostic_client.cpp:114-178 | the follow-ups of a report are attached to it, all of them in order, and nothing else changes |
| DiagnosticModel.FollowUpOfDropped | lsp-server/diplomat/src/diagnostic_client.cpp:63-68 | the follow-up of an ignored report is attached to the report before it; that of a report without location is dropped |
| DiagnosticModel.PromptFollowUpsAreDefined | lsp-server/diplomat/src/diagnostic_client.cpp:60-178 | over every run in which a report that is kept or has no location comes between any new client, emission or renaming and the next follow-up, no follow-up reads a lost pointer |
| DiagnosticModel.FollowUpOfNewClient | lsp-server/diplomat/src/diagnostic_client.cpp:11-26 | a follow-up that comes first after a rebuild reads a pointer that was never set |
| DiagnosticModel.LastLostExactly | lsp-server/diplomat/src/diagnostic_client.cpp:39-46 | cleaning loses the last report if and only if its entry is empty, renaming if and only if its entry moves onto another one |
| DiagnosticClient.LSPDiagnosticClient.ReportNewDiagnostic | lsp-server/diplomat/src/diagnostic_client.cpp:60-131 | a located diagnostic that is not ignored is appended to its document's entry, which becomes the last publication; a report without location forgets the last publication |
| DiagnosticClient.LSPDiagnosticClient.ReportRelatedDiagnostic | lsp-server/diplomat/src/diagnostic_client.cpp:133-178 | a follow-up goes to the newest diagnostic of the last publication, and nowhere if there is none; that the publication is lost is told apart |
| DiagnosticClient.LSPDiagnosticClient.RemapDiagnosticUri | lsp-server/diplomat/src/diagnostic_client.cpp:192-247 | the table after extraction, insertion, renaming inside the entries and the placeholder is the renaming function's |
| DiagnosticClient.DiplomatLSP.EmitDiagnostics | lsp-server/diplomat/src/diplomat_lsp.cpp:195-207 | the loop publishes every entry once, drops the empty ones, and leaves the editor synchronised |
| DiagnosticClient.DiplomatLSP.EraseDiagnostics | lsp-server/diplomat/src/diplomat_lsp.cpp:213-221 | afterwards the server holds and the editor shows nothing |
| DiagnosticClient.DiplomatLSP.RebuildClient | lsp-server/diplomat/src/diplomat_lsp.cpp:454-454 | the new client remembers the documents of the old one without their diagnostics, so the editor stays tracked |
| Positions.Contains | indexer/index_elements.cpp:88-104 | the four comparisons are inclusion in the order by line, then column |
| Positions.ContainsRange | indexer/index_elements.cpp:106-121 | the same for ranges |
| Positions.ContainsRangeIsInclusion | indexer/index_elements.cpp:106-121 | a range contains an ordered one if and only if it contains all its positions |
| PositionIndex.LookupIsScanExactly | indexer/index_file.cpp:62-77 | the lookup by upper bound agrees with a scan at every position if and only if no two records overlap |
| PositionIndex.FoundContains | indexer/index_file.cpp:71-76 | what is found contains the position, whatever overlaps |
| PositionIndex.EmplaceKeepsSorted | indexer/index_file.cpp:79-91 | inserting keeps the map ordered, refuses exactly when the start is taken, and adds nothing else |
| PositionIndex.IndexCore.AddReference | indexer/index_file.cpp:79-91 | each symbol's reference set stays exactly the non-definition records keyed to it over all files |
| PositionIndex.IndexCore.AddSymbol | indexer/index_file.cpp:10-23 | the symbol declared over the range, or a new one whose definition is recorded unless its start is taken |
| PositionIndex.IndexCore.LookupSymbolByLocation | indexer/index_file.cpp:62-77 | the method returns the key of the record the lookup finds |
| InnermostScope.AnswerStops | indexer/index_scope.cpp:168-202 | whatever the ranges, the search from a scope finds something if and only if the scope covers the position, and it stops at a scope below that covers it while no child does |
| InnermostScope.ScopeAtIsInnermost | indexer/index_scope.cpp:187-200 | the search finds the innermost scope, children elsewhere in the file allowed, when around a position of a scope at most one child, and the child above anything around it, is around it too |
| InnermostScope.ChildOrderIrrelevant | indexer/index_scope.cpp:192-199 | the order of the children at any level does not change the range of the answer |
| InnermostScope.LookupNarrowestExactly | indexer/index_file.cpp:51-60 | in every order of the table the lookup gives the smallest scope of the file around every position if and only if no scope has a narrower one of the file at a place that its children leave out |
| InnermostScope.OrderIrrelevantExactly | indexer/index_file.cpp:54-58 | the order of the table never changes the text of the answer if and only if all scopes at which the search can stop around a position cover the same text |
| InnermostScope.SameTextSameRange | indexer/index_elements.cpp:88-121 | scopes over the same text have the same range |
| InnermostScope.AnswerIsInnermostOfFile | indexer/index_file.cpp:51-60 | for scopes one within the other or twins, as instances of one module are, whichever registered scope is met first, the answer has the range of the innermost one |
| InnermostScope.LookupIgnoresOrder | indexer/index_file.cpp:51-60 | for such scopes any two orders of the table give answers of the same range |
| InnermostScope.InstancesElsewhere | indexer/index_visitor.cpp:130-145 | a file with modules instantiated outside their text, one of them twice, meets all these conditions |
| InnermostScope.ParametersDecide | indexer/index_file.cpp:51-60 | two instances of one module below different parents, of which only one has a generate block: the lookup inside the block depends on the order of the table |
| PlainDesign.PlainDesignIsIndexed | indexer/index_visitor.cpp:90-246 | where siblings have different names and texts, the walk succeeds and the index below the root is the design: names, texts, virtual flags and members, and nothing else |
| PlainDesign.ParametersAreIndexed | indexer/index_visitor.cpp:90-246 | the scopes on which that lookup depends on the order are the index of a design |
| ScopeTree.UnnamedInjective | indexer/index_scope.cpp:297-301 | made-up names never coincide |
| ScopeTree.UnnamedText | indexer/index_scope.cpp:297-301 | a made-up name is the word and the numeral of the counter |
| ScopeTree.AliasedPathResolves | indexer/index_scope.cpp:122-140 | a dot-free path whose components are names or aliases of the scopes on the way resolves to the scope |
| ScopeTree.PathRoundTripExactly | indexer/index_scope.cpp:257-263 | what follows the root in the full path resolves from the root to that very scope if and only if no name on the way has a dot |
| VisitModel.AddChildKeeps | indexer/index_scope.cpp:29-46 | a child is found again or made, under its name or the next made-up one, with links, names and ranges of the whole tree kept sound |
| VisitModel.AddAliasExactly | indexer/index_scope.cpp:48-75 | aliasing a child fails if and only if the alias stands for another one |
| VisitModel.OpenForKeeps | indexer/index_visitor.cpp:90-157 | however a scope is opened, a child of the current one is pushed that the used name closes; the only failure is a taken alias |
| VisitModel.RetouchKeeps | indexer/index_visitor.cpp:221-243 | coming back to an instance for its module name changes neither scopes nor stack |
| VisitModel.CloseExactly | indexer/index_visitor.cpp:32-44 | closing fails if and only if no scope is open or the name is neither that of the scope nor empty for an anonymous one |
| VisitModel.VisitKeeps | indexer/index_visitor.cpp:90-246 | for every design without made-up names the walk leaves the stack as it was, each stack element a child of the one below, never fails to close, and can only fail by a taken alias |
| DesignIndex.OpenForEnters | indexer/index_visitor.cpp:130-157 | in a conforming design opening succeeds: the scope entered is the only child over its range, and its name denotes it |
| DesignIndex.VisitIndexes | indexer/index_visitor.cpp:90-246 | walking a conforming design succeeds, keeps what the index held, and the index then holds every scope of the design |
| DesignIndex.DesignIsWalked | indexer/index_visitor.cpp:13-44 | from an empty index a walk ends with no open scope and its root in place, or at a taken alias |
| DesignIndex.IndexedExactly | indexer/index_visitor.cpp:90-246 | the walk succeeds with every scope, duplicates shared, found under its name and range if and only if a name never has two ranges in one shared place |
| DesignIndex.SecondRangeOverwrites | indexer/index_visitor.cpp:142-143 | a name met with a second range that no sibling covers enters the old scope and overwrites its range without an error; the first text is covered by no child any more |
| DesignOutline.FineExactly | indexer/index_visitor.cpp:90-246 | a table of places and names, filled along the design, tells whether some name has two ranges in one shared place |
| DesignOutline.ConflictFails | indexer/index_visitor.cpp:130-138 | at the first name with a second range the visitor fails if and only if the text is covered and the name was met for a covered text before |
| DesignOutline.WalkEndsExactly | indexer/index_visitor.cpp:90-246 | the walk succeeds with every scope in the index exactly when the table has no conflict; when the first conflict is such a clash the walk ends in the alias error, and unless something was lost first it does so in no other case |
| DesignExamples.UniqueNamesMayClash | indexer/index_visitor.cpp:132-138 | a design with unique sibling names on which the visitor fails: two instances of one body, to which bind directives add instances of different modules under one name |
| DesignExamples.BlocksMayBeLost | indexer/index_visitor.cpp:142-143 | two instances of one body with differently selected generate blocks of one name: the walk succeeds and the first block cannot be found |
| IndexWalk.IndexVisitor.CloseScope | indexer/index_visitor.cpp:32-44 | closing pops exactly when the name fits, empty names fitting anonymous scopes |
| IndexWalk.IndexVisitor.EnterScope | indexer/index_visitor.cpp:98-157 | the branches for scopes without syntax, new ones and duplicates compute the opening function |
| IndexWalk.IndexVisitor.Handle | indexer/index_visitor.cpp:90-246 | the recursive walk computes the visiting function, exceptions included |

## Left out

- ProjectBuild.BuildIsExact: for one given graph a sufficient condition; ProjectBuild.OrderDecides proves that no condition on the graph alone is exact, and ProjectLayout.LayoutIsSafeExactly is exact over all graphs and orders.
- Declarations.PlainBlockAligned: text widths are unbounded numbers, where the program computes in unsigned and size_t; they agree for texts shorter than 2^31.
- Declarations.FormattableExactly: an absent signing token counts as not missing and of empty text, which is how the program reads it.
- Declarations.DeclarationFormatter.SwitchBlockKind: the test of kinds is that of the syntax library, which is not part of this model, and so a parameter; called on a plain node, as here, it holds for every kind, and no block is ever closed by its kind.
- ServerModel.EveryRunIsOrderly: request ids and tokens are drawn fresh, where the program draws random UUIDs.
- CacheModel.LookupSound: of several workspace blackboxes of one name the least address is taken, where the program takes the first of an ordered set of pointers.
- RpcTransport.RpcPipeTransport.ReadJson: the parser, and how much input is buffered when it fails, are parameters.
- TransportQueues.AsleepExactly: the two flags of a closed medium are read together, and a notification wakes all sleepers in one step.
- Rewriting of comment spacing and of extra newlines; formatting of named types, ports, instances, continuous assignments, part selects and several declarators; declarations have flat token lists as expressions.
- Merging the protocol version into messages, stop tokens, sleeps, stream and logging details of the transport.
- Ids that are neither strings nor integers get their error reply without an id, as in the code; standard exceptions that escape the loop and the mapping of unknown errors inside command execution are not modelled.
- Unpacking of arguments for custom commands, capabilities, trace level.
- The client URI table of the cache, path standardisation, the refresh loops over the file sets, the source manager.
- DiagnosticClient.LSPDiagnosticClient.ReportRelatedDiagnostic: what the program reads through a lost pointer; the method then changes nothing and says so.
- Severity and code texts of diagnostics.
- Deep scope search, search by range, visible symbols, symbol resolution, concrete paths, dumps.
- Which of several children over one range is met first: the model takes the one made first, and proves that there is only one. When an alias is registered for a name that is itself an alias, the code looks up the new name instead of the old one; the model does the same, but the visitor never gets there.
- Symbols added by the visitor while it walks, syntax roots and file registration.
- Elaboration, parsing, file system and clocks, which appear as inputs of the steps.
