# Aivory, verified

A Dafny 4.11 model of the parts of Aivory where several things happen at once, where a reply can get
lost, or where a format must survive a round trip. Everything below is proved for all inputs, all
interleavings and all runs of the model; `dafny verify dfyconfig.toml` checks the whole project.

| files | what they model |
|---|---|
| `SessionLocks`, `SessionTable` | the sandbox sidecar's lock table: reference-counted per-session locks made and dropped on the fly; as a state machine, and as the dictionaries and `_SessionState` objects that refine it |
| `SandboxLifecycle`, `SessionCreation`, `ReaperFreshness` | creation, file and exec handlers, DELETE with its archive purge, and the reaper, as small steps of any number of threads over containers, an object store and the lock table; what a creation leaves, and how long a use protects a session |
| `SseFraming`, `SseResume` | the incremental SSE framer, the server's event encoding, and the GET stream that resumes with Last-Event-ID |
| `AccountRequests`, `AccountRetry` | the epoch guard against replies for a former account, the single-flight token refresh, and the one retry after it |
| `ExpressionGrammar`, `ExpressionLexer`, `ExpressionTokens`, `ExpressionParser`, `ExpressionSyntax`, `ExpressionCompile` | the function-plot expression compiler: tokenizer, recursive-descent parser, grammar and minimal printing, validator and evaluator |
| `BackupServer`, `BackupUpload` | the chunked backup import, page and server, over a network that loses, repeats and delays |
| `MathContent`, `MathRecognition`, `ComposerDocument`, `ComposerRoundTrip`, `ComposerNodes`, `ComposerText` | how a message is cut into text and formulas, the composer's conversion between it and an editor document, and what both together do to a text |
| `EnvFile`, `Updater` | the updater's transaction: environment file, services, health checks, rollback |
| `VoiceStream` | the bounded audio queue of a live transcription |
| `Bytes`, `Sha256`, `Sha256Example` | the in-place SHA-256 and HMAC against FIPS 180-4 and RFC 2104, with the standard's constants and its first example |
| `FolderPaths`, `FolderTree`, `FolderTreeBuilder` | the drawer's directory tree: what its counters mean, and the shared mutable nodes that build it |
| `ConversationImport` | the depth-first walk that orders imported messages |
| `ForegroundPolling` | the polling hook's state machine |
| `Prelude`, `Whitespace` | options, trimming and line ends shared by the others |

How the model meets the outside world:

* A thread or a message is a small step; any enabled step may come next. Commands, sockets, networks
  and timers are parameters that answer the n-th question (`fate`, `net`, `socket`), so a result for
  every parameter is a result for every behaviour of theirs. An exception is a `None`, a `false`, a
  null or an outcome value.
* A class stands where the source keeps mutable state, and its methods are proved against functions
  of the old state; the properties are then proved about those functions.
* Text is a sequence of characters, audio samples and file contents are sequences of abstract
  elements or bytes, and 32-bit words are bit vectors.

What turned out not to hold as one might expect:

* A failed update whose rollback succeeds leaves the environment file as it was exactly if the file
  has no carriage return, because it is read with universal newlines and written back as read
  (`Updater.EnvRestoredExactly`, with the input in `Updater.ReturnLost`).
* A discard DELETE that returns ok leaves nothing of the session in its bucket, in every run, exactly
  if it forwards the archive key that the session was made with, or the session was made without a key
  of its own (`SandboxLifecycle.DiscardClearsExactly`). The sidecar forgets the key whenever it forgets
  the session: when the reaper or a DELETE has removed it, and with a restart. For every other key
  forwarded, or none, there is a run in which the archive stays behind
  (`SandboxLifecycle.LostKeyLeavesArchive`, for one input in `LostKeyExample`).
* The value of a compiled expression is a function of its declared variables, under every arithmetic,
  as long as no constant that it uses gets another meaning from the environment
  (`ExpressionCompile.CompiledDependsOnVariables`). An entry under a constant's name can change the
  value, under some arithmetic, exactly if the expression uses that constant
  (`ExpressionCompile.RedefinedConstant`); under a given one a use may have no effect, as in `pi^0`
  (`UsedWithoutEffect`), but at the expression `pi` every other value has one (`RedefinedPi`).
* Polling needs the visibility and online events in time. While it is neither stopped nor disposed, it
  stands still with the handler content exactly if a timer fired or a request settled while the page
  was unavailable, which the handler neither knew nor has found since (`ForegroundPolling.LateEvents`;
  inputs in `MissedByTimer` and `MissedByRequest`).
* Two trips of a message through the composer are not always one: `$a $x$ b$` becomes
  `$a \(x\) b$`, which becomes `\(a \(x\) b\)` (`ComposerText.TwiceIsNotOnce`). A second trip changes
  nothing exactly if the message after the first is cut into formulas in trimmed backslash
  delimiters, no two blocks touching (`ComposerText.IdempotentExactly`).

## Model

| member | source | states |
|---|---|---|
| `SessionLocks.StepKeeps` | sandbox-service/app.py:418-454 | Every atomic step of `_session_lock`, `_touch` and `_forget`, by any thread, keeps the lock invariant: counted references, waiters on the mapped lock object, no entry that nobody needs. |
| `SessionLocks.MutualExclusion` | sandbox-service/app.py:418-437 | Two threads inside the body for the same session are the same thread. |
| `SessionLocks.BlockedOnlyByOwner` | sandbox-service/app.py:418-437 | A waiter can acquire its lock exactly when nobody is inside its session's body; it never waits on an object that later arrivals do not use. |
| `SessionLocks.LockTableSafety` | sandbox-service/app.py:418-454 | In every state of every interleaving: mutual exclusion, every waiter's object is the mapped one, every entry has a thread or a last use (nothing leaks), every tracked session has an entry, every waiter is free to go or blocked by an owner. |
| `SessionTable.Sessions.constructor` | sandbox-service/app.py:418-454 | The empty dictionaries represent the empty table. |
| `SessionTable.Sessions.SetDefault` | sandbox-service/app.py:418-424 | `setdefault` on the dictionary of state objects is the table's step and returns the mapped object. |
| `SessionTable.Sessions.Enter` | sandbox-service/app.py:420-424 | The entering section on real objects is exactly the abstract entering step. |
| `SessionTable.Sessions.Acquire` | sandbox-service/app.py:424-437 | Acquiring succeeds exactly when the lock is free and the patience lasts, and is then the abstract step; otherwise nothing changes. |
| `SessionTable.Sessions.Release` | sandbox-service/app.py:427-437 | Releasing is the abstract step. |
| `SessionTable.Sessions.Leave` | sandbox-service/app.py:427-437 | The closing section (the count, and the entry dropped with the last unused reference) is the abstract departure. |
| `SessionTable.Sessions.Touch` | sandbox-service/app.py:439-443 | `_touch` on the dictionaries is the abstract step, which `ReaperFreshness` ties to what it is for. |
| `SessionTable.Sessions.Forget` | sandbox-service/app.py:445-454 | `_forget` on the dictionaries is the abstract step. |
| `SandboxLifecycle.StepKeepsInv` | sandbox-service/app.py:796-984 | Each step of creation, handlers, DELETE, archiving, purging, reaper, clock and restart, and of a container that stops by itself, keeps the invariant that ties threads, locks, containers, keys, plans and archives together; no completed discard is taken back, and no archive is written for a session that one has cleared. |
| `SandboxLifecycle.RestartKeeps` | sandbox-service/app.py:529-561 | A restart at any moment, whatever was under way, and whichever containers are found afterwards, keeps the invariant. |
| `SandboxLifecycle.ReaperOnlyRemovesIdle` | sandbox-service/app.py:2046-2087 | Whenever the reaper removes a container that is there, it is inside that session's lock, alone, and the last use on record is at that moment older than the session's time to live, however long ago the stale list was made. |
| `SandboxLifecycle.HandlersExclusive` | sandbox-service/app.py:914-1110 | At most one handler, DELETE or reaper pass is in the critical section of a session, in every reachable state. |
| `SandboxLifecycle.CapHolds` | sandbox-service/app.py:797-911 | In every state of every run there are at most as many containers as configured, however many creations count and start containers at the same time. |
| `SandboxLifecycle.PurgedStaysPurged` | sandbox-service/app.py:1066-1110 | After a discard DELETE has returned ok, in every later state of every interleaving, restarts included, none of the session's archives is at a purged address; if the session's key is among the purged stems, the bucket holds nothing of it under any key; with stems of its own, the addresses stay empty. |
| `SandboxLifecycle.NothingWrittenAgain` | sandbox-service/app.py:1066-1110 | After any ok discard DELETE, with storage or without, the container is gone for good and no archive of the session is ever written again, at any address of any bucket. |
| `SandboxLifecycle.PurgeReachesExactly` | sandbox-service/app.py:1984-1998 | In every reachable state a discard decides to purge the address of the session's archives exactly if that is its own id, the forwarded key, or, with none forwarded, if a key is still remembered. |
| `SandboxLifecycle.DiscardClearsExactly` | sandbox-service/app.py:1984-1998 | For every session, bucket, made key and forwarded key: every ok discard in every run leaves nothing of the session in the bucket if and only if the made key is forwarded, or there is none but the id. |
| `SandboxLifecycle.PackKeeps` | sandbox-service/app.py:1913-1981 | Archiving a workspace from inside the critical section keeps the invariant. |
| `SandboxLifecycle.PurgeOneKeeps` | sandbox-service/app.py:1984-1998 | Purging one address, or failing to, keeps the invariant; a failure is not forgotten. |
| `SandboxLifecycle.LostKeyLeavesArchive` | sandbox-service/app.py:1984-1998 | For every session made with a key of its own and every other key or none forwarded, a run from the first startup in which the discard returns ok and the archive stays, since the reaper has removed the session. |
| `SandboxLifecycle.LostKeyExample` | sandbox-service/app.py:1984-1998 | The promise fails for session `s` with key `conv` and no key forwarded. |
| `SessionCreation.CreationGoesThrough` | sandbox-service/app.py:797-911 | Wherever there are fewer containers than configured and nobody counts, whatever else is under way, a creation can go through, and then exactly its own container, key, bucket, time to live and a use now are added to what is remembered. |
| `ReaperFreshness.ReaperSparesTheUsed` | sandbox-service/app.py:2046-2087 | In every run: once a request or a creation has recorded a use of a session, the reaper removes its container only at a moment when more than its time to live has passed since then, counted by the clock and not by the record. |
| `ReaperFreshness.ServedAfterTouch` | sandbox-service/app.py:914-984 | A request that has been served has recorded its use. |
| `ReaperFreshness.ReaperSparesTheServed` | sandbox-service/app.py:2046-2087 | So a session for which a request has returned ok outlives that use by its time to live. |
| `ReaperFreshness.OwnTimeToLive` | sandbox-service/app.py:899-911 | A session's own time to live, as long as it is remembered, is the one it was made with, in every later state. |
| `ReaperFreshness.StaleAreTheIdle` | sandbox-service/app.py:2050-2056 | The stale list has exactly the sessions whose last use is older than their time to live. |
| `ReaperFreshness.IdleIsReaped` | sandbox-service/app.py:2063-2071 | A reaper that has locked a session goes on exactly if no younger use is on record. |
| `SseFraming.FramesAreFramed` | src/api/client.ts:546-572 | Cutting at the first blank line, again and again, is a framing: pieces without a separator in them or across their ends, and a rest without one. |
| `SseFraming.FramingUnique` | src/api/client.ts:546-572 | A text has only one framing. |
| `SseFraming.FramesExtend` | src/api/client.ts:656-677 | Reading on from the buffered rest gives the framing of the whole text. |
| `SseFraming.BodyReader.Feed` | src/api/client.ts:656-677 | After a chunk the buffer holds the rest and no complete separator, and the frames are those the chunk completed. |
| `SseFraming.BodyReader.Finish` | src/api/client.ts:656-677 | At a regular end a rest with text in it is one more frame. |
| `SseFraming.ParseSSEFrame` | src/api/client.ts:679-697 | The line loop computes the specified frame, which `SseResume.FrameRoundTrip` pins. |
| `SseResume.FrameRoundTrip` | src/api/client.ts:679-697 | Written as id, event and data lines, with or without the first two and with any number of the last, a frame is dropped exactly if it has no data line; else it has that id or none, that name or `message`, and its data lines joined by newlines. |
| `SseResume.WrittenLines` | server/internal/sse/sse.go:49-70 | What the server writes are those lines, the id line and the event line left out when empty. |
| `SseFraming.ReadBody` | src/api/client.ts:656-677 | Reading a body chunk by chunk gives exactly the frames of its whole text. |
| `SseFraming.ChunkingIrrelevant` | src/api/client.ts:656-697 | However the same text is cut into chunks, the same frames come out in the same order. |
| `SseResume.EventRoundTrip` | server/internal/sse/sse.go:49-70 | The client's parser undoes the server's event encoding, for events with and without an id and a name. |
| `SseResume.PingIsSilent` | server/internal/sse/sse.go:49-81 | A ping comment yields no frame. |
| `SseResume.WireFramed` | server/internal/sse/sse.go:49-81 | What the server writes is framed into its items, with nothing left over. |
| `SseResume.BodyIsPrefix` | src/api/client.ts:575-654 | Whatever part of a replay arrives, its frames are the next events, in order and without a gap; all of them if it ended regularly. |
| `SseResume.StreamGet` | src/api/client.ts:575-654 | Against any honest network and a log that may grow meanwhile, the frames yielded are the events after the starting point, each once and in order; it ends regularly only behind a terminal one or behind all there were when the connection ended; no four reconnects in a row bring nothing; it throws only on a refused reply, an abort while reading or waiting, or after its last three reconnects brought nothing. |
| `SseResume.Deliver` | src/api/client.ts:619-635 | The loop over one connection's frames moves the resume id with the frames yielded, resets the retry count, and stops behind a terminal frame. |
| `AccountRequests.StepKeeps` | src/api/client.ts:249-341 | Every step of a request, an upload or a stream, of a refresh and of an identity change keeps the invariant and delivers only to current callers. |
| `AccountRequests.NothingAfterIdentityChange` | src/api/client.ts:90-105 | An account-bound request under way when the identity changed never again hands a value or a frame to its caller. |
| `AccountRequests.SentAtMostTwice` | src/api/client.ts:249-341 | An api, upload or POST-stream request goes out at most twice, and only once if it is not bound to the account. |
| `AccountRetry.RetriedExactly` | src/api/client.ts:267-327 | In every run, an account-bound request whose first attempt got a 401, and that is over with the account unchanged, has been sent again if and only if the refresh it started or shared has settled well. |
| `AccountRetry.NotSentBefore` | src/api/client.ts:267-327 | Before it is over it is not sent again either unless that refresh has settled well. |
| `AccountRetry.ValueExactly` | src/api/client.ts:249-341 | A request for one value that is over with the account unchanged has handed over exactly one value if a good reply has come, and none if not. |
| `AccountRetry.RetryDelivers` | src/api/client.ts:267-327 | There is a run in which the retried request, api or upload, delivers. |
| `AccountRetry.EveryFrameHandedOver` | src/api/client.ts:497-654 | Unless the account was changed, a stream hands over every frame that arrives, through all its reconnects, but those not yet asked for. |
| `AccountRequests.SingleFlight` | src/api/client.ts:465-488 | At most one refresh runs at a time, and nobody waits for a promise that cannot settle. |
| `ExpressionLexer.Tokenize` | src/lib/function-expression.ts:52-83 | The scanning loop computes the recursive specification of the tokens, with the bounds on text and token count. |
| `ExpressionLexer.SpellingRoundTrip` | src/lib/function-expression.ts:52-83 | Spellable tokens written out and tokenized again are the same tokens, exactly when the bounds allow. |
| `ExpressionLexer.TokensSpellable` | src/lib/function-expression.ts:59-73 | Every token the tokenizer produces is a whole numeral or a lower-case name. |
| `ExpressionLexer.RewritingKeepsTokens` | src/lib/function-expression.ts:52-83 | Rewriting a text by its tokens changes no token. |
| `ExpressionTokens.LongestNumeral` | src/lib/function-expression.ts:59-66 | The numeral read at a place is the longest there: digits with an optional point, at least one of them, and an exponent only with a digit in it. |
| `ExpressionTokens.NextTokenExactly` | src/lib/function-expression.ts:57-82 | The token read at a character is the longest numeral or name there, or the symbol. |
| `ExpressionTokens.LexExactly` | src/lib/function-expression.ts:52-83 | The tokenizer reads a token list if and only if the text holds these tokens, one behind the other with only blanks between. |
| `ExpressionTokens.SmallLetters` | src/lib/function-expression.ts:68-73 | Capital letters become the small ones. |
| `ExpressionParser.ParseAt` | src/lib/function-expression.ts:95-157 | A level that succeeds has read at least one token and stays within the list. |
| `ExpressionParser.Parser.ParseAll` | src/lib/function-expression.ts:95-99 | The parser object with its cursor returns what the levels read from the whole list. |
| `ExpressionParser.Parser.ReadAdditive` | src/lib/function-expression.ts:100-107 | The loop over `+` and `-` reads what the additive level reads, and leaves the cursor behind it. |
| `ExpressionParser.Parser.ReadMultiplicative` | src/lib/function-expression.ts:108-115 | The loop over `*` and `/` reads what the multiplicative level reads. |
| `ExpressionParser.Parser.ReadUnary` | src/lib/function-expression.ts:124-130 | A prefix sign and its operand, or a power. |
| `ExpressionParser.Parser.ReadPower` | src/lib/function-expression.ts:116-123 | A primary, with a right-associative exponent. |
| `ExpressionParser.Parser.ReadPrimary` | src/lib/function-expression.ts:131-157 | Numbers, names, calls and brackets. |
| `ExpressionParser.Parser.ReadCall` | src/lib/function-expression.ts:138-149 | The argument loop reads comma-separated arguments up to the closing bracket. |
| `ExpressionSyntax.ParsesTheGrammar` | src/lib/function-expression.ts:85-158 | The parser succeeds with a tree exactly on the token lists that the declarative grammar derives that tree from, consuming all of them. |
| `ExpressionSyntax.Unambiguous` | src/lib/function-expression.ts:85-158 | No token list has two readings. |
| `ExpressionSyntax.Sound` | src/lib/function-expression.ts:100-157 | What a level reads from any position, the grammar derives from exactly the tokens consumed. |
| `ExpressionSyntax.Complete` | src/lib/function-expression.ts:100-157 | What the grammar derives from a piece of the list, the level reads, whatever token that cannot continue it follows. |
| `ExpressionSyntax.RoundTrip` | src/lib/function-expression.ts:85-158 | Every tree of any size is read back unchanged from its printing with brackets only where precedence and associativity need them. |
| `ExpressionSyntax.MinimalBrackets` | src/lib/function-expression.ts:85-158 | No token list with the same reading is shorter than that printing. |
| `ExpressionCompile.ValidateExactly` | src/lib/function-expression.ts:160-174 | The recursive check accepts a tree exactly when it is at most 32 deep, all its names are declared or constants, and all its calls are of known functions with fitting arity. |
| `ExpressionCompile.EvaluatesExactly` | src/lib/function-expression.ts:176-201 | Evaluation throws nothing exactly when all names have a meaning and all calls are known. |
| `ExpressionCompile.WritesTheTree` | src/lib/function-expression.ts:176-201 | Over the arithmetic whose values are trees, with every name standing for itself, any tree evaluates to itself but for prefix pluses: operators, signs, functions, operands and arguments each in their place. |
| `ExpressionCompile.EvaluatesToItself` | src/lib/function-expression.ts:176-216 | So does every compiled expression in the environment of its declared variables. |
| `ExpressionCompile.QuotientByZero` | src/lib/function-expression.ts:185-193 | The value is that of not a number exactly if the right side of a quotient is zero or the operation itself gives it. |
| `ExpressionCompile.CompileExpression` | src/lib/function-expression.ts:209-216 | The compiler, through tokenizer and parser object, returns what the specification says. |
| `ExpressionCompile.CompilesExactly` | src/lib/function-expression.ts:209-216 | Which expressions compile and to what: tokens in bounds that the grammar derives the tree from, depth, names and calls. |
| `ExpressionCompile.CompiledIsTotal` | src/lib/function-expression.ts:176-216 | A compiled expression evaluates without a throw in every environment that defines the declared variables, over any arithmetic. |
| `ExpressionCompile.CompiledDependsOnVariables` | src/lib/function-expression.ts:176-216 | Under every arithmetic the value depends only on the declared variables and on what the constants used stand for. |
| `ExpressionCompile.RedefinedConstant` | src/lib/function-expression.ts:179-183 | An entry under a constant's name changes the value of a compiled expression, under some arithmetic and in some environment, if and only if the expression uses that constant. |
| `ExpressionCompile.RedefinedPi` | src/lib/function-expression.ts:179-183 | Under every arithmetic, `pi` compiles, and exactly the entries other than the constant change its value. |
| `ExpressionCompile.UsedWithoutEffect` | src/lib/function-expression.ts:187-195 | Under every arithmetic whose zeroth power is always one, redefining `pi` does not change `pi^0`. |
| `ExpressionCompile.CompiledIsBounded` | src/lib/function-expression.ts:160-216 | A compiled tree has no more nodes than the expression has tokens, at most 96, and is at most 32 deep. |
| `ExpressionCompile.CompileRoundTrip` | src/lib/function-expression.ts:209-216 | Printing a compiled tree and compiling the text again gives the same tree exactly if the text is not longer than 240 characters. |
| `BackupServer.ServeKeeps` | server/internal/api/admin_backup_import_jobs.go:229-344 | Serving a chunk, a start or a cancel keeps a job's bytes a prefix of the source; only a cancel takes bytes away, all of them. |
| `BackupServer.HandleKeeps` | server/internal/api/admin_backup_import_jobs.go:110-344 | Whatever request reaches the server, however often and late, its bytes stay a prefix of the source, only a cancel of the job takes any away, and the answer shows the job as it is. |
| `BackupServer.EndKeeps` | server/internal/api/admin_backup_import_jobs.go:364-398 | When a restore ends its file is removed, and what a completed one has restored is the whole source. |
| `BackupServer.RestoreBeginsOnce` | server/internal/api/admin_backup_import_jobs.go:304-344 | A restore begins only by a start with the whole source there, and a job past uploading never changes by a request again. |
| `BackupUpload.Page.Send` | src/api/backup-import.ts:85-160 | One request over a lossy, repeating network has exactly the effect and the reply that the network's choice and the server give it, and keeps the world safe; an acknowledgement of the full size means the server held the whole source. |
| `BackupUpload.Page.Retry` | src/api/backup-import.ts:42-51 | One to three copies are sent, fewer only on an answer or a lasting error; only one if the first is not transiently lost. |
| `BackupUpload.Page.Discard` | src/api/backup-import.ts:34-40 | Gives up an id that was never started; a missing job counts as given up. |
| `BackupUpload.Page.Upload` | src/api/backup-import.ts:102-135 | The chunk loop terminates, sends only chunks of this file up to 4 MiB at the acknowledged offset, and fails on 413 only at 256 KiB or less. |
| `BackupUpload.Page.TryImport` | src/api/backup-import.ts:84-148 | The id has been started exactly when the outcome says so, and then it is no longer pending. |
| `BackupUpload.Page.StartAndWatch` | src/api/backup-import.ts:137-163 | The id is given up before the start is sent; a lost answer is resolved by a status query and at most a repeated start. The result is returned if and only if the last answer shows the restore completed, the known failure if and only if it shows it failed; and it is returned whenever nothing goes wrong from here. |
| `BackupUpload.Page.Watch` | src/api/backup-import.ts:149-163 | Polling tells exactly what the last answer shows, and returns the result if nothing goes wrong and the restore ends well within the patience. |
| `BackupUpload.Page.Import` | src/api/backup-import.ts:64-178 | A retry with the same source reuses its id, another source gets a fresh one; nothing but starts and status queries follows a start; it returns a result if and only if the last answer shows the restore completed, and then the server has restored the whole source; and it does return it whenever every request reaches the server, no reply is replaced, nothing is forgotten, the server would take the source, and the restore ends well within the patience. |
| `BackupUpload.UndisturbedImport` | src/api/backup-import.ts:64-178 | Such a network exists: over it a fresh page imports every file and every archive there is. |
| `BackupUpload.Page.ValidIsSafe` | deploy/README.md:341-355 | The server holds nothing but a prefix of the source and restores nothing but the whole; started ids are never reused or discarded; a start was sent with the whole source there, which was then never taken back unless the server forgot the job. |
| `BackupUpload.Session` | src/api/backup-import.ts:56-178 | Any number of imports one after the other, against any network, end in a safe state. |
| `MathContent.SplitMathContent` | src/lib/math-content.ts:62-194 | The scanning loop, with its flags for closers that are exhausted, cuts every message as the recursive specification without them does. |
| `MathContent.SplitSpells` | src/lib/math-content.ts:57-61 | For every message the segments' pieces put it together again. |
| `MathContent.SplitIsProper` | src/lib/math-content.ts:62-194 | No text segment is empty or follows another, and no formula is blank. |
| `MathContent.NoneLeft` | src/lib/math-content.ts:11-18 | A search for an unescaped closer that finds none means that all occurrences from there on are escaped, so none will be found later. |
| `MathContent.FindInnermost` | src/lib/math-content.ts:120-133 | The loop finds the last unescaped opener in front of the closer. |
| `MathRecognition.CutsBack` | src/lib/math-content.ts:100-144 | Any list of formulas in backslash delimiters, blocks and inline, with plain texts between them, is cut out of its own spelling unchanged. |
| `MathRecognition.BackslashAt` | src/lib/math-content.ts:100-144 | A formula whose body has no delimiter in it and is not blank ends at its first closer, whatever precedes and follows. |
| `MathRecognition.SingleDollarsExactly` | src/lib/math-content.ts:161-187 | A pair of single dollars is a formula if and only if no word stands on either side, no blank inside either end, and no digit behind the first. |
| `MathRecognition.DoubleDollars` | src/lib/math-content.ts:146-159 | A pair of double dollars around text that is not blank is a block. |
| `MathRecognition.CodeIsLiteral` | src/lib/math-content.ts:80-98 | Whatever a code span of any number of backticks or a fenced block of tildes holds, a message of plain text around it is one literal text. |
| `MathRecognition.SkipsIndented` | src/lib/math-content.ts:74-78 | A line indented by a tab or four spaces is passed over as a whole. |
| `ComposerDocument.AppendInlineRun` | src/lib/composer-document.ts:25-57 | The branches and loops append exactly the nodes specified for the run between two blocks. |
| `ComposerDocument.ValueToDocument` | src/lib/composer-document.ts:59-80 | The loop over segments builds the specified document. |
| `ComposerDocument.TerminalBlockCaretIndex` | src/lib/composer-document.ts:93-103 | The search finds where the empty paragraphs at the end start, if a block stands in front of them, and else nothing. |
| `ComposerDocument.EmptyParagraphRunEndsAtBlock` | src/lib/composer-document.ts:105-111 | The forward scan says whether the empty paragraphs end at a block. |
| `ComposerDocument.EmptyParagraphRunStartsDocumentOrBlock` | src/lib/composer-document.ts:113-119 | The backward scan says whether they follow a block or start the document. |
| `ComposerDocument.TopLevelSeparator` | src/lib/composer-document.ts:121-141 | The separator between two neighbouring nodes. |
| `ComposerDocument.DocumentToValue` | src/lib/composer-document.ts:143-167 | The loop writes the specified message, with the caret paragraph left out. |
| `ComposerRoundTrip.SeparatorIs` | src/lib/composer-document.ts:121-141 | In the documents the composer builds, a newline separates two nodes exactly when neither holds text. |
| `ComposerRoundTrip.RoundTrip` | src/lib/composer-document.ts:25-167 | For every segment list, message to document to message gives the canonical message: text untouched, formulas trimmed and in backslash delimiters, one newline between directly adjacent blocks, every other run of blank lines with its exact length. |
| `ComposerRoundTrip.CanonicalSegmentsSpell` | src/lib/composer-document.ts:25-167 | The canonical segments spell the canonical message. |
| `ComposerRoundTrip.Idempotent` | src/lib/composer-document.ts:25-167 | The canonical segments make the same document, and from it the same message. |
| `ComposerNodes.FormulasKept` | src/lib/composer-document.ts:12-80 | The formulas of a message are the formula nodes of its document, in order, trimmed, and block or inline as they were. |
| `ComposerNodes.TypedText` | src/lib/composer-document.ts:82-167 | Text typed in paragraphs with hard breaks is the message of all its lines, with one newline between any two. |
| `Whitespace.TrimExactly` | src/lib/composer-document.ts:82-167 | Trimming takes away the blanks at both ends and nothing else. |
| `Whitespace.LineEndsNormalized` | src/lib/composer-document.ts:60 | Lines that end in a carriage return, a newline or both become the same lines ended by newlines. |
| `ComposerText.Convert` | src/lib/composer-document.ts:59-167 | Cutting, document and message together compute the conversion of a text. |
| `ComposerText.ConvertedIsCanonical` | src/lib/composer-document.ts:59-167 | Every text comes back as the canonical spelling of its own segments, without carriage returns. |
| `ComposerText.FixedExactly` | src/lib/composer-document.ts:59-167 | The composer leaves a text as it is if and only if it has no carriage return, its formulas are in trimmed backslash delimiters, and no two blocks touch. |
| `ComposerText.IdempotentExactly` | src/lib/composer-document.ts:59-167 | For every text, converting twice is converting once if and only if the text converted once is cut into formulas in trimmed backslash delimiters with no two blocks touching. |
| `ComposerText.SameCutSuffices` | src/lib/composer-document.ts:59-167 | It is enough that the second cut finds the canonical segments of the first. |
| `ComposerText.TwiceIsNotOnce` | src/lib/math-content.ts:161-187 | A text that the second conversion changes again. |
| `EnvFile.WriteEnvValue` | updater/updater.py:241-262 | The line loop computes the specified content: first assignment replaced, later ones dropped, or one appended behind a finished last line. |
| `EnvFile.WrittenAssignsOnce` | updater/updater.py:241-262 | Afterwards the file assigns the key exactly once, to the value, and every other line is there as before, in its place. |
| `EnvFile.WrittenKeepsOther` | updater/updater.py:241-262 | The assignment of another key written before survives. |
| `EnvFile.WrittenTwice` | updater/updater.py:241-262 | Writing the same value twice is writing it once. |
| `EnvFile.AssignsExactly` | updater/updater.py:247-249 | A line counts as an assignment of the key exactly if it is blanks, the key, blanks, an equals sign and anything. |
| `EnvFile.CommentAssignsNothing` | updater/updater.py:249 | A commented assignment counts as none, indented or not, so it stays. |
| `EnvFile.IndentedAssigns` | updater/updater.py:247-249 | Spaces and tabs around the key do not matter. |
| `Updater.Host.WaitHealthy` | updater/updater.py:295-313 | Waiting succeeds exactly when the inspections become healthy in the sense of the next row. |
| `Updater.BecomesHealthyExactly` | updater/updater.py:295-313 | Some inspection shows `healthy`, or, where there is no health check, `running`, and none before it shows `exited` or `dead` or fails to list the container; `starting` is neither. |
| `Updater.Host.ComposeUp` | updater/updater.py:158-167 | A success runs the configured or overriding images in the named services and touches no other; a failure may leave anything in the named ones. |
| `Updater.UpdateManager.constructor` | updater/updater.py:63-71 | A state saved in the middle of an update is loaded as failed, which is the machine's restart step. |
| `Updater.UpdateManager.Start` | updater/updater.py:105-125 | An update is admitted exactly when none is in progress; each call is a step of the machine below. |
| `Updater.UpdateManager.SandboxPlan` | updater/updater.py:209-239 | A running bundled sandbox is left alone only if its image's and its runtime's sources are the release's, and replaced only if one of them differs; without failures the plan fails exactly if a source to compare is unknown or the keepalive container is missing. |
| `Updater.UpdateManager.ChangeEnv` | updater/updater.py:340-352 | On success the file has the new tags and the deployment follows them; otherwise what was read is kept for the rollback. |
| `Updater.UpdateManager.ReplaceSandbox` | updater/updater.py:353-359 | Both sandbox services run the new images and were seen healthy, in that order. |
| `Updater.UpdateManager.ReplaceApp` | updater/updater.py:360-364 | The application runs the pulled image and was seen healthy; no other service changed. |
| `Updater.UpdateManager.TryRun` | updater/updater.py:321-364 | Whatever fails, the attempt leaves what a rollback needs; if nothing fails and the deployment follows the tags, everything of the new release runs, an outdated sandbox replaced and seen healthy before the application was touched. |
| `Updater.UpdateManager.RollBack` | updater/updater.py:368-385 | If no command fails, file, containers and runtime image are as before the update. |
| `Updater.UpdateManager.Run` | updater/updater.py:315-391 | All or nothing under a failure of any command: completed with tags written, services healthy in order and sources equal; or failed, and, if the rollback went through, every container and the file restored. Without failures it completes, with an outdated bundled sandbox replaced too, if the application runs, the pulled images are of one known source, the sandbox's sources are known and the compose file follows the tags. |
| `Updater.EnvRestoredExactly` | updater/updater.py:340-374 | A rollback leaves the file's content unchanged exactly if it holds no carriage return. |
| `Updater.ReturnLost` | updater/updater.py:340-374 | A file that a rolled-back update changes. |
| `Updater.UpdatedEnvAssigns` | updater/updater.py:342-344 | A completed update leaves each tag assigned exactly once, to the version. |
| `Updater.AtMostOneRun` | updater/updater.py:69-125 | Whatever is called and whenever the process restarts, at most one update thread is alive, and one is exactly while the status says so: over every interleaving of the steps that `Start`, the constructor and each status set by `Run` are shown to be. |
| `VoiceStream.Session.BufferFrame` | src/lib/audio-stream.ts:193-200 | A frame, or the end of one larger than the whole buffer, is queued behind the others, and as few of the oldest as possible are dropped to keep the bound. |
| `VoiceStream.Session.SendFirst` | src/lib/audio-stream.ts:223-247 | The oldest queued frame goes out, or a throwing send ends the session. |
| `VoiceStream.Session.SendEnd` | src/lib/audio-stream.ts:260-270 | The end goes out exactly when it has not, nothing is queued, the server is ready and the socket takes it. |
| `VoiceStream.Session.FlushBufferedFrames` | src/lib/audio-stream.ts:239-251 | Exactly a prefix of the queue goes out, in order, until the queue is empty or the socket is full, and then the end if the user has stopped. |
| `VoiceStream.Session.OnTick` | src/lib/audio-stream.ts:239-251 | A tick sends exactly the first frames of the queue, stops early only at a full socket, and touches nothing pending. |
| `VoiceStream.Session.OnAudio` | src/lib/audio-stream.ts:272-281 | Samples captured while capturing are cut into frames of 3200, the rest stays pending. |
| `VoiceStream.Session.OnReady` | src/lib/audio-stream.ts:316-327 | The first ready makes a frame of the pending tail and flushes: unless the socket is meanwhile closed, full or throwing, nothing made is left unsent. |
| `VoiceStream.Session.Stop` | src/lib/audio-stream.ts:363-371 | Stopping ends capture at once and queues the tail; if the server is ready and the socket takes everything, all of it and the end go out. |
| `VoiceStream.Session.Cleanup` | src/lib/audio-stream.ts:202-215 | A closed session holds and captures nothing. |
| `VoiceStream.NothingLost` | src/lib/audio-stream.ts:193-281 | As long as nothing was dropped, the frames heard, those queued and the samples pending are all that was captured, in order. |
| `VoiceStream.OnlyOldestDropped` | src/lib/audio-stream.ts:193-251 | Heard and queued frames are in capture order, what is missing is older than everything queued, and the queue's bytes are counted right and at most 960000. |
| `VoiceStream.EndIsLast` | src/lib/audio-stream.ts:249-270 | The end is sent once, only after ready and stop, and no frame follows it. |
| `VoiceStream.AllHeard` | src/lib/audio-stream.ts:193-281 | Once the server is ready and everything is flushed, what was captured and not dropped is heard but for less than a frame; after a stop all of it, and the end behind it. |
| `VoiceStream.Live` | src/lib/audio-stream.ts:154-376 | Every sequence of events, against every socket, stays within the invariant; on a socket that takes everything the session goes on until it is ended, knows whether it is ready and stopped, and is flushed. |
| `Sha256.RotrRotates` | src/lib/hmac-sha256.ts:69-71 | The shifts and the or are a rotation. |
| `Sha256.PaddingIsMinimal` | src/lib/hmac-sha256.ts:25-32 | The padded message is the smallest whole number of 64-byte blocks with room for the mark and the length. |
| `Sha256.PaddingIsInjective` | src/lib/hmac-sha256.ts:25-32 | Different messages are padded differently. |
| `Sha256.PaddedLengthExactly` | src/lib/hmac-sha256.ts:26-28 | The 32-bit shifts give the padded length exactly for messages of fewer than 2^31 - 72 bytes; beyond, the buffer is shorter than the data. |
| `Sha256.PadBuffer` | src/lib/hmac-sha256.ts:25-32 | The buffer filled in place is the padding of section 5.1.1 of FIPS 180-4, or cannot be made. |
| `Sha256.ExpandBlock` | src/lib/hmac-sha256.ts:40-45 | The two loops fill the array with the message schedule of section 6.2.2. |
| `Sha256.ComputeRound` | src/lib/hmac-sha256.ts:47-58 | One turn of the loop on the eight variables is one round of section 6.2.2. |
| `Sha256.CompressBlock` | src/lib/hmac-sha256.ts:46-60 | The loop and the additions are the compression of one block. |
| `Sha256.Hash` | src/lib/hmac-sha256.ts:24-67 | The program computes the digest of FIPS 180-4 for every length below the limit and throws beyond. |
| `Sha256Example.CubeRoots0` | src/lib/hmac-sha256.ts:12-22 | The first eight round constants are the first 32 bits of the fractional parts of the cube roots of the primes 2 to 19, as section 4.2.2 of FIPS 180-4 has them. |
| `Sha256Example.CubeRoots1` | src/lib/hmac-sha256.ts:12-22 | The same for constants 8 to 15 and the next eight primes. |
| `Sha256Example.CubeRoots2` | src/lib/hmac-sha256.ts:12-22 | The same for constants 16 to 23 and the next eight primes. |
| `Sha256Example.CubeRoots3` | src/lib/hmac-sha256.ts:12-22 | The same for constants 24 to 31 and the next eight primes. |
| `Sha256Example.CubeRoots4` | src/lib/hmac-sha256.ts:12-22 | The same for constants 32 to 39 and the next eight primes. |
| `Sha256Example.CubeRoots5` | src/lib/hmac-sha256.ts:12-22 | The same for constants 40 to 47 and the next eight primes. |
| `Sha256Example.CubeRoots6` | src/lib/hmac-sha256.ts:12-22 | The same for constants 48 to 55 and the next eight primes. |
| `Sha256Example.CubeRoots7` | src/lib/hmac-sha256.ts:12-22 | The same for constants 56 to 63 and the next eight primes. |
| `Sha256Example.SquareRoots` | src/lib/hmac-sha256.ts:34-36 | The initial hash value comes from the square roots of the first eight primes, as in section 5.3.3. |
| `Sha256Example.DigestOfAbc` | src/lib/hmac-sha256.ts:24-67 | The digest of `abc` is the one published with the standard. |
| `Sha256.HmacOfShortKey` | src/lib/hmac-sha256.ts:74-88 | Byte by byte, for a key of at most 64 bytes: the digest of the key with zeros behind it combined with 0x5c, before the digest of the same combined with 0x36 before the text. |
| `Sha256.HmacOfLongKey` | src/lib/hmac-sha256.ts:74-88 | A longer key counts as its digest. |
| `Sha256.HmacSha256` | src/lib/hmac-sha256.ts:74-88 | The two pads and hashes are the HMAC of section 2 of RFC 2104, for every key and message. |
| `FolderPaths.SegmentsOfJoin` | src/lib/folder-attachments.ts:124-142 | Joined segments are cut into the same segments, so paths name directories uniquely. |
| `FolderPaths.NamesOf` | src/lib/folder-attachments.ts:141-142 | Names with runs of slashes and backslashes between and around them are cut into those names. |
| `FolderPaths.UnderOnlyPrefixes` | src/lib/folder-attachments.ts:155-160 | A path lies under nothing but its proper prefixes. |
| `FolderTree.InFolderExactly` | src/lib/folder-attachments.ts:141-151 | A file is accepted if and only if its path does not start with a slash of either kind, has at least two names, and the first is neither `.` nor `..`. |
| `FolderTree.BuildCounts` | src/lib/folder-attachments.ts:139-163 | For any list of files, the directories are exactly those with a file below them, and each one's count, size and own files are those of the files whose path lies under it. |
| `FolderTree.OneParent` | src/lib/folder-attachments.ts:122-137 | Every directory below the top is a child of exactly one other; a top one of none. |
| `FolderTree.OwnAndChildren` | src/lib/folder-attachments.ts:155-162 | A directory's counter is its own files and its children's counters, its size the sizes of its own files and its children's sizes. |
| `FolderTree.EveryFileOnce` | src/lib/folder-attachments.ts:139-163 | Every accepted file is among the own files of exactly one directory, as often as it is in the list; every other file is at the top level. |
| `FolderTree.NoFileLost` | src/lib/folder-attachments.ts:139-168 | The files at the top level and the counters of the top directories add up to all files. |
| `FolderTree.FirstSeenFirst` | src/lib/folder-attachments.ts:130-134 | Of two directories in the order of the map, the first has a file below it as soon as the second has. |
| `FolderTree.ChildrenAsSeen` | src/lib/folder-attachments.ts:132-134 | So have the children of every directory: they are in first-seen order. |
| `FolderTree.TopsAsSeen` | src/lib/folder-attachments.ts:165-168 | And so are the directories at the top. |
| `FolderTreeBuilder.TreeBuilder.EnsureNode` | src/lib/folder-attachments.ts:122-137 | The recursive lookup on shared nodes is the specified insertion, keeps the nodes there are, and names each by the last segment of its path. |
| `FolderTreeBuilder.TreeBuilder.LinkChild` | src/lib/folder-attachments.ts:131-134 | A child is pushed unless it is there. |
| `FolderTreeBuilder.TreeBuilder.AddToFolders` | src/lib/folder-attachments.ts:155-162 | The loop over the levels on shared nodes is the specified addition of a file. |
| `FolderTreeBuilder.FileFolderTree` | src/lib/folder-attachments.ts:115-169 | The whole run over the files builds the specified tree, the files outside it, and the top directories in first-seen order. |
| `ConversationImport.Visitor.Visit` | src/lib/conversation-import.ts:95-102 | The recursion terminates on every map, cyclic and dangling links included, and lists what a walk with an explicit list lists. |
| `ConversationImport.Visitor.Collect` | src/lib/conversation-import.ts:93-109 | The two driving loops are one walk from the roots and then from everything. |
| `ConversationImport.EveryMessageOnce` | src/lib/conversation-import.ts:93-109 | If keys are ids, every message with a non-empty id is listed exactly once, whatever the links. |
| `ConversationImport.ForestInPreorder` | src/lib/conversation-import.ts:90-109 | If the child links draw a forest on the messages without a parent, the list is its preorder. |
| `ConversationImport.ParentsListedFirst` | src/lib/conversation-import.ts:90-109 | In such a forest every message is listed before its replies, and replies in their own order. |
| `ConversationImport.LinkedInPreorder` | src/lib/conversation-import.ts:90-109 | If parent and child links agree and nobody is its own ancestor, the links draw a forest of all messages and the list is its preorder. |
| `ConversationImport.RepliesFollow` | src/lib/conversation-import.ts:90-109 | Under the same condition on the links alone, every message is listed before its replies, and the replies in their own order. |
| `ConversationImport.RootsInMapOrder` | src/lib/conversation-import.ts:90-105 | Under the same condition, messages without a parent are listed in the order of the map. |
| `ForegroundPolling.DelayBounds` | src/hooks/use-foreground-polling.ts:38-44 | Every delay lies between the interval and the larger of the interval and 30 seconds. |
| `ForegroundPolling.DelayDoubles` | src/hooks/use-foreground-polling.ts:38-44 | Without failures the delay is the interval; each of the first five failures in a row doubles it, up to the larger of the interval and 30 seconds, and further ones change nothing. |
| `ForegroundPolling.DelayGrows` | src/hooks/use-foreground-polling.ts:40-42 | One more failure never shortens the delay. |
| `ForegroundPolling.Poller.Tick` | src/hooks/use-foreground-polling.ts:45-53 | A request starts exactly when none is in flight and polling is not disposed, stopped or unavailable. |
| `ForegroundPolling.Poller.Settle` | src/hooks/use-foreground-polling.ts:54-71 | When a request settles, failures, the permanent stop and the next request or timer follow its outcome. |
| `ForegroundPolling.Poller.SuspendOrResume` | src/hooks/use-foreground-polling.ts:73-86 | The handler aborts and clears on the way out, resumes at once or after the running request on the way in. |
| `ForegroundPolling.Poller.Flip` | src/hooks/use-foreground-polling.ts:73-86 | A flip delivered as an event keeps the invariant. |
| `ForegroundPolling.Poller.Dispose` | src/hooks/use-foreground-polling.ts:92-100 | After cleanup no timer is left and a running request is aborted. |
| `ForegroundPolling.Live` | src/hooks/use-foreground-polling.ts:24-100 | Over every sequence of events, each change handled at once: at most one request in flight; none ever started while one was, or while unavailable, stopped or disposed; a pending timer only when none is; one or the other whenever polling may go on; and an abort whenever it may not. |
| `ForegroundPolling.Poller.Change` | src/hooks/use-foreground-polling.ts:36-37 | A change that is not handled yet breaks nothing of what holds however late the handler runs. |
| `ForegroundPolling.LateEvents` | src/hooks/use-foreground-polling.ts:24-100 | Over every sequence of changes, handler runs, timers and settled requests in any order: no overlap and no wrongful start; and neither a request nor a timer is left, with nothing new for the handler to see, if and only if a timer fired or a request settled while unavailable, the handler had last seen available, and no run of it found unavailable since. |
| `ForegroundPolling.StaysMissed` | src/hooks/use-foreground-polling.ts:73-86 | From then on nothing but a handler run while the page is unavailable ends it. |
| `ForegroundPolling.MissedByTimer` | src/hooks/use-foreground-polling.ts:73-86 | The timer fires in the gap, and nothing is left. |
| `ForegroundPolling.MissedByRequest` | src/hooks/use-foreground-polling.ts:54-71 | A request settles in the gap, no timer involved, and nothing is left. |

## Left out

- Docker, subprocess, object-store clients, tar and HTTP mechanics of the sidecar and the updater: containers, images and objects are abstract and their calls succeed or fail.
- The sidecar's `_terminating` flag (a fast path that no proof rests on), the exec slots, the count used when `docker ps` fails, `_BoundedOutput`, `_collect_new_files`, and restoring a workspace.
- The contents of archives; an archive is known by its address and the session it was made from.
- JSON parsing and byte-level decoding in the client: a frame's data is its text, and the streams work on decoded text. Request signatures, toasts and the site-closed and banned notices.
- `parseOne` beyond the order of the messages: roles, titles, cleaning of contents and the active leaf.
- The value of a numeral, floating point, and which numerals are finite: the arithmetic and the finiteness test are parameters. `evaluateFunction`'s bound on the result.
- Which characters belong to words for `isWordCharacter`: a parameter, as it is a matter of Unicode's tables. `hasMathContent` and `mathContentToPlainText`: they would only add easy members.
- Node types of the editor other than paragraphs, block formulas, text, hard breaks and inline formulas.
- Overlapping backup imports on one page, progress callbacks, the capability token, the owner and size checks of the server, a server archive that changes before its restore, and the result body. A page closed while polling is the bound on its patience.
- The progress texts and sandbox status in the updater's state. Failures of saving its state file, its token file, and crash recovery beyond the restart marking. Fingerprints from the network: an image has a source or none. The parsed previous value that `_write_env_value` returns and `_restore_env_value`, which the update does not call.
- Handlers of the audio session that call back into its controller, resampling and PCM encoding, and the transcript texts.
- `groupAttachmentsByFolder` and `chipRailItems`: they would only add easier members. A non-finite size counts as none.
- The request headers and React's own scheduling around the polling hook.
- EnvFile.WrittenAssignsOnce: for keys and values without a line boundary of `str.splitlines`, which the update's keys and versions never hold.
- SandboxLifecycle.PurgedStaysPurged: the purged addresses stay empty under the conditions named there, because another session may own one of them and a forgotten key names one that was never purged.
