# sm3tproxy, modelled and proved in Dafny

sm3tproxy is a programmable TCP proxy: an epoll loop relays bytes between the two ends of
each connection, a Lua script may filter them, and a Lua table configures it. This project
models four of its parts and proves what they promise for every input, every run and every
reachable state.

- **The relay.** `Relay` is one call of the TCP handler on a connected pair, `RelayRuns` the
  event loop over whole runs of batches, `RelayTheorems` what holds in every reachable state,
  `RelayOutcomes` runs judged from outside: who is given up and when, and bytes in against bytes out.
  `RelayContext` and `RelayServer` are the same machine as mutable objects updated in place,
  proved to move exactly as the value model says; `Vec` is the dead-context list.
- **The command line.** `Args` cuts arguments into items, `ArgsMeaning` says what parsed
  entries set, `ArgsTheorems` proves the documented spellings equivalent, `ArgsParser` is the
  parser with its loops. `WordWrap` is the wrapping of help texts.
- **The configuration.** `Lua` is a stack of values over a heap of tables, `LuaSchema` the
  recursive validator, `SchemaPaths` the same said of every path at once, `LuaConf` reading and writing by dotted path, `SchemaProxy` the proxy's
  own schema, `LuaHooks` the three hooks.
- **Support.** `RingQueue` is the rotating upstream queue, `Views` the string views, `Arithmetic`
  the few facts about division and powers of two the proofs use, `Wrappers` the option type.

The whole project is verified with `dafny verify dfyconfig.toml`.

## How the outside world is modelled

- Each handler call takes an `Io`: what `recv`, the hook and `send` answer. `Arrive(d)` is data
  the kernel holds, of which one call takes at most 1023 bytes; nothing at all is end of file.
  `Room(n)` lets the kernel take at most `n` bytes. A statement over all `Io` covers every
  behaviour of the sockets and of the script.
- epoll reports only contexts that were registered when it was asked, each at most once per
  batch; changing a registration succeeds; the listening socket is told apart from contexts;
  the kernel never hands out a descriptor that is still open.
- A new context starts zeroed, without a peer. Contexts are named by allocation order, so a name
  is never reused.
- How the C library reads numerals, how Lua reads and writes them, and how a double is rounded to
  single precision, are parameters.

## What turned out not to hold, and exactly when it does

- **The read buffer is also the write queue.** A context with queued bytes that is readable but
  not reported writable is read into the same buffer (the guard looks at the peer's queue only),
  so queued bytes can be overwritten, both ends can end up with a backlog, and the wake-up of one
  of them can be disarmed. `Clobbers` is the guard of that branch. One call conserves the streams,
  and keeps the masks in agreement, for every answer of the environment if and only if the guard is
  false (`ConservedExactlyWhenExclusive`, `MasksAgreeExactlyWhenExclusive`), and
  `ExclusivityIsNeeded` is a possible run in which the wrong byte is delivered. `ReadsOver` is the
  narrower case in which such a call does receive data. The stream and mask theorems are about a
  pair `a`, `b` that was not itself read over (`Reachable(w, {a, b})`): end of file, errors and
  hang-ups on a backlogged end, and whatever happens on other connections, are all allowed. Links,
  lifetimes and windows need no such hypothesis.
- **The queue of a severed end can be thrown away.** A severed context with queued bytes is given up
  with some of them undelivered if and only if an event on it does not report writability, or the send
  fails or takes nothing (`DiscardsExactly` for one call, `QueueLostExactly` over runs). After one side
  hangs up, the other gets everything ever accepted for it if and only if there is no such event and
  the sends together have room for what was queued (`OrderlyCloseDeliversExactly`).
- **A severed end with queued bytes dereferences null.** The handler reads the descriptor of the peer
  before it tests the peer for null (src/proxy/sm3t_ctx.c:84), so a call is undefined exactly when
  `c.peer.None? && c.win.partial`. The value is used on the linked path only, and the model reads it
  there: every theorem about the queue of a severed end is about the code as its own null tests
  (lines 95, 102, 118 and 129) intend it, not about a build in which that load traps.
- **Descriptor 0 is never closed.** Releasing a context closes its descriptor only when it is
  positive, so the release theorems are about positive descriptors.
- **The upstream queue** hands items out in turn if and only if at most eight were added: the ninth
  overwrites the first, and the last slot of the rotation is never written (`RoundRobinExactly`).
- **Word wrapping** makes progress on every text if and only if the width is at least two
  (`ProgressExactly`); the program's width is at least thirty. A text that exactly fills the width
  is still broken at its last good space, as `BreaksAt` says.
- **Configuration round trip**: reading back what was written gives the same value if and only if
  the last path segment is not empty, an integer is exact as a double (a mantissa of at most 2 to the 53
  times a power of two, `ExactMeansHeld`) and a string is not empty,
  and the way to the table does not pass through the field written (`RoundTripExactly`).
- **`-cvalue` and `-c value`**, behind any number of stacked flags, are the same tokens if and only if
  the letter is no flag and the value is not empty (`StackedFormsAgreeExactly`): what is written behind
  a flag is more letters, and an empty value cannot be attached.
- **`--name=value` and `--name value`** are the same tokens if and only if the name resolves to an
  option that takes a value (`LongFormsAgreeExactly`). The documentation states it for long options
  in general; names resolve to the first option they are a prefix of.

## Model

| member | source | states |
|---|---|---|
| Relay.HandleKeepsWindow | src/proxy/sm3t_ctx.c:90-216 | After any call the pending window lies inside the 1024-byte buffer, is marked pending exactly while it holds bytes, and a write side was shut down only once unlinked with nothing queued; no hypothesis on events |
| Relay.PendingWindowIsNotReplaced | src/proxy/sm3t_ctx.c:131-203 | A pending window is never replaced by a second queueing, and only a flush of its own context moves it |
| Relay.HandleLinks | src/proxy/sm3t_ctx.c:69-234 | A call that returns false leaves both ends unlinked, one that returns true leaves the link alone; descriptors never change |
| Relay.HandleKeepsPair | src/proxy/sm3t_ctx.c:75-233 | From two linked ends with conserved streams and agreeing masks, every call that does not receive data over its own queue leads to such ends again, or to a severed pair that delivered prefixes |
| Relay.ConservedExactlyWhenExclusive | src/proxy/sm3t_ctx.c:131-216 | Every outcome of a call conserves both streams if and only if the call does not go on to read over its own queue |
| Relay.MasksAgreeExactlyWhenExclusive | src/proxy/sm3t_ctx.c:131-216 | Every outcome of a call keeps interest masks and backlogs in agreement if and only if the call does not go on to read over its own queue |
| Relay.ReadDelivers | src/proxy/sm3t_ctx.c:155-216 | The data of a read, or the hook's replacement of 1 to 1024 bytes, goes to the peer's wire as far as there is room and the rest becomes its window; nothing is delivered or queued when the hook refuses or the send fails or takes nothing |
| Relay.ReadTakes | src/proxy/sm3t_ctx.c:131-133 | What a call logs as read is a prefix of what arrived: all of it up to 1023 bytes and the first 1023 otherwise, with the hook's answer, exactly when it flushes nothing, input is reported, the peer has nothing queued and data arrived; otherwise nothing, and never for the peer |
| Relay.NothingElseDelivers | src/proxy/sm3t_ctx.c:90-231 | Only a read delivers to the peer and only a flush to the context itself |
| Relay.HookRule | src/conf/lua/sm3t_lua_hooks.c:87-114 | The data is refused exactly on an answer that is no string or longer than 1024 bytes, replaced exactly by one of 1 to 1024 bytes, and passes unchanged otherwise |
| Relay.GivesUpExactly | src/proxy/sm3t_ctx.c:75-233 | A call on a linked context gives it up if and only if a flush fails or takes nothing, a read fails or ends, the hook refuses, the forward fails or takes nothing, or a hang-up is reported with nothing to read |
| Relay.MarksExactly | src/proxy/sm3t_ctx.c:98-231 | End of file and hang-up mark both ends, and shut the peer down exactly when nothing is queued on it; a zero-byte flush marks the context, a zero-byte forward marks and shuts down the peer; nothing else marks |
| Relay.FlushDelivers | src/proxy/sm3t_ctx.c:90-127 | A flush hands over as much of the window as there is room for, and one that empties it re-arms reading on both ends |
| Relay.HandleAlone | src/proxy/sm3t_ctx.c:75-129 | A call on a severed context reads nothing, relinks nothing, and moves bytes only from its window to the wire |
| Relay.AloneExactly | src/proxy/sm3t_ctx.c:75-129 | A severed context is kept exactly while bytes stay queued and the event flushes some or is told to try again; its marks and delivered bytes, case by case |
| Relay.DiscardsExactly | src/proxy/sm3t_ctx.c:90-129 | One event on a severed context with queued bytes gives it up with some undelivered iff it does not report writability, the send fails, or it takes nothing |
| Relay.DrainLosesExactly | src/proxy/sm3t_ctx.c:90-129 | Over any sequence of events a severed context is given up with bytes undelivered iff such an event reaches it while it is still kept |
| Relay.DrainTerminates | src/proxy/sm3t_ctx.c:90-121 | Whatever bits come with writability, in whatever portions the kernel takes the bytes and however often it says to try again, once it had room for as many as were queued the whole window is delivered and the context given up |
| Relay.DrainDeliversExactly | src/proxy/sm3t_ctx.c:90-129 | A severed context that every event finds still registered delivers its whole queue iff all events are writable with no failing or empty send and together have room for it, and throws some away iff one is not |
| RelayRuns.StepKeeps | src/proxy/sm3t_server.c:212-333 | Every event keeps symmetric links, windows, the partition into registered, dead and freed, and distinct descriptors; it also keeps streams and masks of every pair it does not read over |
| RelayRuns.RunKeeps | src/proxy/sm3t_server.c:205-336 | The same over any number of whole batches, for every pair that was never itself read over |
| RelayRuns.RunFollows | src/proxy/sm3t_server.c:205-336 | Over any continuation freed contexts stay freed and severed contexts only drain |
| RelayRuns.RunDrains | src/proxy/sm3t_server.c:205-336 | Over whole runs a severed context is exactly what the events addressed to it make of it, whatever the others do; each of them finds it still kept, and it leaves the epoll set exactly when one gives it up |
| RelayRuns.ReachableIsSafe | src/proxy/sm3t_server.c:205-336 | Every state between two events of every run satisfies the invariants, and streams and masks are in order for every pair not itself read over |
| RelayTheorems.StreamConservation | src/proxy/sm3t_ctx.c:90-216 | In every reachable state, bytes delivered to one end and then its queue equal the concatenation, in order, of the hook outputs for everything read from the other, if neither of the two was itself read over; what is read is `ReadTakes` and, over runs, `RunLogs` |
| RelayTheorems.PrefixSafety | src/proxy/sm3t_ctx.c:90-231 | Through errors, drops, end of file, hang-ups and flushes after severing, bytes delivered to each side are a prefix of the bytes accepted for it, and a pending queue completes them, if the pair was not itself read over |
| RelayTheorems.LinkSymmetry | src/proxy/sm3t_ctx.c:75-231 | In every reachable state a points to b iff b points to a, linked contexts are registered, and dead or freed ones point nowhere |
| RelayTheorems.NoDanglingPeer | src/proxy/sm3t_server.c:315-335 | A link always leads to a live, registered context |
| RelayTheorems.ExactlyOnceRelease | src/proxy/sm3t_server.c:328-336 | Every context is registered, or on the dead list once, or freed once; a positive descriptor is closed once exactly when its context is freed; no two unreleased contexts share a descriptor |
| RelayTheorems.BatchReleasesItsDead | src/proxy/sm3t_server.c:335-335 | After a batch the dead list is empty and exactly the contexts given up so far are freed |
| RelayTheorems.AcceptLosesNoDescriptor | src/proxy/sm3t_server.c:213-323 | However serving the listening socket ends, every accepted or connected descriptor is held by a registered context or by a freed one, which closed it if it was positive, and an established connection links its two ends |
| RelayTheorems.MasksAgree | src/proxy/sm3t_ctx.c:111-209 | A linked pair not itself read over waits for input on both ends while it has no backlog; with one, the backlogged end waits to write and the other only for a hang-up; never both are backlogged |
| RelayTheorems.NoLostWakeup | src/proxy/sm3t_ctx.c:111-209 | Linked or severed, a context of a pair not itself read over waits to write while bytes are queued, and always for a hang-up |
| RelayTheorems.WindowInvariant | src/proxy/sm3t_ctx.c:108-203 | The window invariant holds in every reachable state of every run |
| RelayTheorems.SeveringIsAbsorbing | src/proxy/sm3t_ctx.c:75-129 | In every state of every continuation, inside batches too, a severed context has read nothing more and is not relinked, and what it still delivered is a prefix of its window at severing |
| RelayTheorems.OrderlyCloseDeliversExactly | src/proxy/sm3t_ctx.c:75-231 | From any reachable state, after one end meets end of file or a hang-up, in every state of every continuation the other end has received everything ever accepted for it, in order, iff nothing was queued or all its events were writable with no failing or empty send and together had room for the queue; once it has left the epoll set, iff they were all such |
| RelayTheorems.SeveredDeliversExactly | src/proxy/sm3t_ctx.c:75-129 | The same for a context severed in any way, against the bytes it had delivered or queued by then |
| RelayTheorems.QueueLostExactly | src/proxy/sm3t_ctx.c:75-129 | Over any continuation a severed end leaves the epoll set with bytes undelivered iff one of its events did not report writability or had a send that failed or took nothing |
| RelayTheorems.ExclusivityIsNeeded | src/proxy/sm3t_ctx.c:131-132 | A run the environment can produce, with both ends readable in one batch, delivers bytes that are not the ones accepted |
| RelayTheorems.OrderlyRun | src/proxy/sm3t_ctx.c:90-177 | Runs that spare a pair are not idle: in one, two bytes are read, queued because the peer would block, flushed together when it is writable, and delivered |
| RelayTheorems.OrderlyCloseHappens | src/proxy/sm3t_ctx.c:90-231 | A run in which one end hangs up while two bytes are queued for the other and one send then takes both meets every hypothesis of the orderly close, and the bytes are delivered |
| RelayOutcomes.AcceptExactly | src/proxy/sm3t_server.c:213-323 | Which contexts serving the listening socket makes, with which descriptors and in which state, which of them it registers and which it frees at once, for every way it can end |
| RelayOutcomes.EventsGiveUp | src/proxy/sm3t_server.c:324-333 | Within a batch a registered context reaches the dead list, and leaves the epoll set, if and only if an event on it gives it up |
| RelayOutcomes.ReleasedExactly | src/proxy/sm3t_server.c:205-336 | Over whole runs a registered context is freed if and only if some event on it gave it up, and is still registered otherwise |
| RelayOutcomes.RunLogs | src/proxy/sm3t_ctx.c:131-133 | Over whole runs the data read from a context is the concatenation, over the events that read it, of what arrived or its first 1023 bytes |
| RelayOutcomes.BytesArriveInOrder | src/proxy/sm3t_ctx.c:90-231 | End to end: if the remote behind one end sends a stream and no hook touches it, the remote behind the other has got a prefix of that stream in every state of every run, and with the queue all of it that was read, if the pair was not itself read over |
| RelayContext.OnData | src/conf/lua/sm3t_lua_hooks.c:93-114 | The reader's buffer and length after the hook: refused exactly on no string or more than 1024 bytes, replaced by 1 to 1024 bytes, unchanged otherwise |
| RelayContext.Context.FlushQueued | src/proxy/sm3t_ctx.c:90-127 | Updates the two objects in place as `Relay.Flush` says |
| RelayContext.Context.RelayData | src/proxy/sm3t_ctx.c:155-215 | Buffer, hook, send and queueing in place, as `Relay.Relayed` says |
| RelayContext.Context.OnEvent | src/proxy/sm3t_ctx.c:69-234 | The handler on two linked objects: their views and the returned flag are those of `Relay.Handle`, and no link is ever made |
| RelayServer.Server.LinkNew | src/proxy/sm3t_server.c:312-323 | Two fresh contexts linked to each other and registered, as `RelayRuns.Link` says |
| RelayServer.Server.AcceptOne | src/proxy/sm3t_server.c:213-323 | Every way of serving the listening socket moves the state as `RelayRuns.Accept` says |
| RelayServer.Server.DispatchOne | src/proxy/sm3t_server.c:324-332 | The handler runs on the object named; a context it gives up leaves the epoll set for the dead list |
| RelayServer.Server.ReleaseDead | src/proxy/sm3t_server.c:335-335 | Every dead context is freed in order, its descriptor closed when positive, and the list emptied |
| RelayServer.Server.RunBatch | src/proxy/sm3t_server.c:205-336 | One batch over objects takes the state to `EndBatch(RunEvents(w, events))` and keeps every invariant |
| RelayServer.Server.RunServer | src/proxy/sm3t_server.c:205-343 | Any number of batches over objects leads to a state reachable while sparing whatever contexts the run spared, so every theorem about reachable states, streams and masks included, holds of the objects, and peers point at each other |
| RelayServer.NextIsReported | src/proxy/sm3t_server.c:325-328 | Whatever a batch still has to report is registered, so neither dead nor freed, when its turn comes |
| Vec.Vec.Append | src/core/sm3t_vec.c:8-26 | Appends at the end, losing nothing, to eight slots at first and doubling a full array |
| Args.Find | lib/args.h:728-738 | The first option whose short name is the letter, or of whose long name the text is a prefix; none exactly when no option matches |
| Args.EveryArgumentOnce | lib/args.h:1243-1304 | Every argument becomes exactly one positional, option argument or separately taken value, in order: the items render back to the arguments |
| Args.EveryItemOk | lib/args.h:1243-1304 | Every item of every command line says what its arguments say: which are positional, the name between the dashes and the first equals sign or the end, one entry for each letter with the flags first, and which entry takes the attached text, the next argument or nothing |
| Args.ItemsAreUnique | lib/args.h:1243-1304 | The items of a command line are the only ones that render to it and say what their arguments say |
| Args.NameMeans | lib/args.h:728-738 | A name means the first option with that letter, or whose long name starts with that text; being a flag and taking a value are read off that option |
| ArgsMeaning.ApplyIffAcceptable | lib/args.h:1333-1358 | Validation succeeds if and only if every entry is known and well formed and no two are about the same option, and then the settings are exactly what the entries say |
| ArgsMeaning.ConvertExactly | lib/args.h:740-775 | The value of a text by the kind of its option: the number the reader gives, the text itself, the index or the listed spelling of the first choice equal up to case; none exactly when there is no such number or choice |
| ArgsMeaning.ErrorExactly | lib/args.h:1333-1358 | Validation fails with an error if and only if the entries before some entry are fine and that one is unknown, already set, a flag with a value, without a value, or has a text that stands for nothing, in that order |
| ArgsMeaning.ExitExactly | lib/args.h:1306-1331 | Parsing exits early exactly by the first entry that means a help, version or early-exit flag |
| ArgsMeaning.FatalExactly | lib/args.h:1306-1358 | Parsing ends in such an error if and only if no entry exits early and some entry is to blame |
| ArgsMeaning.MissingExactly | lib/args.h:1360-1365 | A required option is reported missing exactly when nothing else is wrong and it is the first required one no entry means |
| ArgsMeaning.DoneExactly | lib/args.h:1306-1368 | Parsing returns normally exactly when no entry exits early, all entries are fine and every required option is there |
| ArgsMeaning.SetOnNormalReturn | lib/args.h:1333-1368 | On normal return an option is set iff exactly one entry means it, has the value that entry's text stands for by the option's kind, and every required option is set |
| ArgsMeaning.FinishSame | lib/args.h:1306-1368 | Entries equal up to the argument quoted in messages come to the same exit, error or settings, up to the message |
| ArgsTheorems.Splice | lib/args.h:1243-1304 | What stands before a loop head is cut up the same whatever follows it |
| ArgsTheorems.LongFormsAgreeExactly | lib/args.h:1255-1277 | `--name=value` and `--name value` give the same entries and positionals iff the name resolves to an option that takes a value, for every value |
| ArgsTheorems.LongFormPreservesMeaning | lib/args.h:1255-1368 | Anywhere the loop is about to read it, the two long spellings lead to the same outcome and positionals |
| ArgsTheorems.StackSplits | lib/args.h:1278-1303 | `-abcx` and `-a -b -c -x` give the same entries and positionals for any number of flags and whatever the last letter is, alone, with a value attached, or with one behind it |
| ArgsTheorems.SplittingPreservesMeaning | lib/args.h:1278-1368 | Anywhere the loop is about to read it, splitting such a stack leads to the same outcome and positionals |
| ArgsTheorems.NoShift | lib/args.h:1243-1304 | Entries that end in an argument taken as a value, followed by those of what is behind it, are never those of reading that argument itself, whatever the command line |
| ArgsTheorems.ShortFormsAgreeExactly | lib/args.h:1278-1303 | `-cvalue` and `-c value` give the same entries and positionals iff the letter is no flag and the value is not empty |
| ArgsTheorems.StackedFormsAgreeExactly | lib/args.h:1278-1303 | `-abcvalue` and `-a -b -c value`, for any number of stacked flags, give the same entries and positionals iff the last letter is no flag and the value is not empty |
| ArgsTheorems.StackingPreservesMeaning | lib/args.h:1278-1368 | Anywhere the loop is about to read it, a stack that ends in a letter that is no flag and a non-empty value leads to the same outcome and positionals as the separate spelling |
| ArgsParser.Parser.FindOption | lib/args.h:728-738 | The lookup loop returns what `Args.Find` says |
| ArgsParser.Parser.ParseShort | lib/args.h:1278-1303 | The inner loop over stacked letters yields the entries of `Args.ShortItem` and says whether the next argument was taken |
| ArgsParser.Parser.Tokenise | lib/args.h:1234-1304 | The loop yields the entries and positionals of `Args.Items`, writing positionals within as many slots as there are arguments |
| ArgsParser.Parser.Validate | lib/args.h:1333-1358 | Sets options in place as `ArgsMeaning.Apply` says, stopping at the first error |
| ArgsParser.Parser.FindClash | lib/args.h:1203-1217 | Finds two options with equal long names, or equal short names that are not absent, if and only if there are any |
| ArgsParser.Parser.ParseArgs | lib/args.h:1193-1369 | The whole parse: missing program name, duplicate options, completion commands, early exits, errors, or the settings and positionals; after an early exit the settings are the initial ones, with the flag on but not marked set for an early-exit flag |
| WordWrap.ChunkBreaks | lib/args.h:1419-1429 | A line ends at a newline or the end of the text if that comes before the width, else at the last space not in its first half, and in mid-word only if there is none |
| WordWrap.BreakIsUnique | lib/args.h:1419-1429 | That rule determines where the line ends |
| WordWrap.ProgressExactly | lib/args.h:1412-1439 | Every line of every text makes progress, so the loop ends, iff the width is at least two |
| WordWrap.Wrap | lib/args.h:1405-1440 | The lines and the separators dropped after them rejoin to the description, every line fits the width and holds no newline, a space or newline behind a line is dropped and nothing else is, and the remaining length never goes negative |
| WordWrap.Describe | lib/args.h:1405-1440 | The same at the width left beside an option column of any size, which is never below thirty, so the loop always ends |
| Lua.ToDoubleExactly | src/conf/lua/sm3t_parser.c:362-363 | An integer read back as a number is unchanged iff it is a multiple of the spacing of doubles around it, which all below 2 to the 53 are |
| Lua.ExactMeansHeld | src/conf/lua/sm3t_parser.c:362-363 | An integer survives being read back as a number iff it is, up to sign, some mantissa of at most 2 to the 53 times a power of two |
| Lua.ToDoubleIsNearest | src/conf/lua/sm3t_parser.c:362-363 | No number a mantissa of at most 2 to the 53 and an exponent can give is nearer to an integer than what it is converted to |
| Lua.TiesToEven | src/conf/lua/sm3t_parser.c:362-363 | Of two multiples of the spacing equally near, the even one is taken |
| Lua.TruncateExactly | src/conf/lua/sm3t_parser.c:363-363 | The cast of a number to an integer gives the one next to it on the side of zero |
| LuaSchema.ValidateTable | src/conf/lua/sm3t_parser.c:238-305 | The recursive stack program returns exactly the pure conformance predicate, with float validators given the value rounded to single precision and text validators the text Lua writes for that very value; everything below keeps its slot, and the surplus left equals the number of fields, at any depth, that pushed a default |
| SchemaPaths.ConformsExactly | src/conf/lua/sm3t_parser.c:238-305 | A configuration conforms if and only if it is a table and at every place the schema names, at any depth, the path of keys leads to a value that is right for that node |
| SchemaPaths.FieldOkExactly | src/conf/lua/sm3t_parser.c:252-290 | Which values a node accepts by its kind: booleans, functions, tables, numbers and texts that read as numbers, strings, with what its validator is shown |
| SchemaPaths.DefaultExactly | src/conf/lua/sm3t_parser.c:255-279 | A field leaves a default behind exactly when it is no number where one is expected or no string where one is required |
| LuaConf.PathSegments | src/conf/lua/sm3t_lua_conf_rw.c:17-32 | The segments of a path are those of the part before its last dot, then the key unless it is empty |
| LuaConf.WalkExactly | src/conf/lua/sm3t_lua_conf_rw.c:17-32 | Following a path succeeds exactly when there is a trail of tables, each the field of the one before, and ends where it ends |
| LuaConf.ReadByKind | src/conf/lua/sm3t_parser.c:319-366 | What a value is read as for every kind asked for and every kind it has: booleans, non-empty strings, numbers and numeric texts; a number read as a string ends the process, and everything else fails |
| LuaConf.GetExactly | src/conf/lua/sm3t_lua_conf_rw.c:37-51 | Reading a path fails when the configuration is no table or the path leads nowhere, and reads what it leads to otherwise |
| LuaConf.SetExactly | src/conf/lua/sm3t_lua_conf_rw.c:53-104 | A write changes exactly the field under the last segment in the table the rest of the path leads to |
| LuaConf.RoundTripExactly | src/conf/lua/sm3t_lua_conf_rw.c:37-104 | Reading back a successful write gives the value iff the key is not empty, the value survives, and the way to the table does not read the field written; on any heap, cyclic ones included |
| LuaConf.RoundTripOnTrees | src/conf/lua/sm3t_lua_conf_rw.c:37-104 | On tree-shaped tables the round trip needs only a non-empty key and a value that survives |
| LuaConf.OtherPathsUnchanged | src/conf/lua/sm3t_lua_conf_rw.c:53-104 | On tree-shaped tables a write leaves every path not through the assigned key as it was |
| LuaConf.SetKeepsTree | src/conf/lua/sm3t_lua_conf_rw.c:53-104 | Writing a value keeps tables a tree, so writes can follow one another |
| LuaConf.Traverse | src/conf/lua/sm3t_lua_conf_rw.c:10-35 | Pushes the value the path leads to, or leaves the stack as it was |
| LuaConf.GetConfValue | src/conf/lua/sm3t_lua_conf_rw.c:37-51 | Returns what `LuaConf.Get` says and restores the stack on success and failure |
| LuaConf.SetConfValue | src/conf/lua/sm3t_lua_conf_rw.c:53-104 | Changes the heap as `LuaConf.Set` says, succeeds iff the parent is a table and the type has a setter, and restores the stack on every way out |
| SchemaProxy.ValidatedListenIsInRange | src/proxy/sm3t_server.c:195-196 | From a validated configuration the mode read is an index into the three handlers and the port fits sixteen bits |
| SchemaProxy.RangesExactly | src/conf/lua/sm3t_parser.c:79-121 | Which integers the five validated fields accept: modes 0 to 2, ports 1 to 65535, and the policies |
| SchemaProxy.CommandLineReachesServer | src/core/sm3tproxy.c:39-49 | On a validated, tree-shaped configuration the server reads exactly the port, telemetry switch and mode that the command line put there, after all three writes |
| LuaHooks.OnConnect | src/conf/lua/sm3t_lua_hooks.c:12-37 | Drops if and only if the hook ran, on the context, and answered false or nil; the stack is restored on every path |
| LuaHooks.OnDisconnect | src/conf/lua/sm3t_lua_hooks.c:39-65 | The stack is restored on every path |
| LuaHooks.OnData | src/conf/lua/sm3t_lua_hooks.c:67-115 | The process ends exactly on a number; the data is dropped exactly on an answer that is no string or longer than 1024; it passes unchanged without a hook, on an error and on the empty string; any other string replaces it byte for byte; the stack is restored unless the process ends |
| LuaHooks.HookIsFound | src/conf/lua/sm3t_lua_hooks.c:70-80 | The hook is the function the configuration holds under hooks and its name |
| LuaHooks.ScriptSeesData | src/conf/lua/sm3t_lua_hooks.c:84-84 | The script is given the data byte for byte, and handing it back changes nothing |
| RingQueue.RoundRobinExactly | src/core/sm3t_queue.c:10-46 | The n-th dequeue returns item n modulo the number of items, for every n, iff at most eight items were added, whatever the items are |
| RingQueue.NthExactly | src/core/sm3t_queue.c:10-46 | Which item every dequeue hands out for any number of items: the slots hold the items eight places on while there are any, then their own, and a slot no item reached holds nothing |
| RingQueue.Fairness | src/core/sm3t_queue.c:38-46 | From any head, over any number of dequeues, the selection counts of any two slots differ by at most one |
| RingQueue.Queue.Add | src/core/sm3t_queue.c:10-36 | The array, head, tail and size after adding an item, growth included |
| RingQueue.Queue.Next | src/core/sm3t_queue.c:38-46 | Hands out the item at the head and moves the head on modulo the size |
| Views.Find | src/core/sm3t_views.c:69-80 | The least occurrence at or after the offset, or -1 exactly when there is none |
| Views.FindChar | src/core/sm3t_views.c:82-90 | The least position of the character at or after the offset, or -1 exactly when there is none |
| Views.Split | src/core/sm3t_views.c:92-107 | Found iff the delimiter occurs; the left part holds none, both parts and the delimiter are the view, and an empty right part has no data; outputs are written only for a view with data |
| Views.PiecesRejoin | src/core/sm3t_views.c:92-107 | Splitting again and again ends, its pieces hold no delimiter, and joined with it they are the view |
| Views.ToU32 | src/core/sm3t_views.c:159-173 | Succeeds iff the view is a non-empty run of digits whose value fits 32 bits, returning that value, and no step overflows 64 bits |
| Views.DecimalRoundTrip | src/core/sm3t_views.c:159-173 | The value of a run of digits is the number they are written for, leading zeros included |

## Left out

- Sockets, address lookup, connecting upstream and formatting addresses: system calls, reduced to the results in `AcceptResult` and `Io`.
- Choosing an upstream inside the server: the queue is modelled on its own, and whether an address was found is a result.
- The context leaked when accept itself fails: ownership starts with an accepted descriptor.
- Failing allocations: allocation always succeeds.
- The hook's direction argument never varies, and what a script changes in its tables while it runs is not modelled: a script is a function of its arguments.
- The terminator the hook stores after a replacement.
- A numeric answer of on_data inside a run of the relay: `LuaHooks.OnData` shows that it ends the process.
- The echo and SOCKS5 handlers: a test and a placeholder.
- Nulling the slots of the dead list: slots past its size are not observable.
- The Lua interpreter, sandboxing, metatables, file loading and the `proxy` functions: only stack effects and results matter here.
- C casts of doubles outside the 64-bit range: `Truncate` is unbounded.
- Long names and descriptions are not checked for allowed characters; `WellNamed` states the one fact about short names that is used.
- Shell completion, the layout of help around the wrapped text, and the C++ wrapper in lib/args.h.
- View trimming and case-insensitive comparison, the unused vector pop, the logger, main and the build files.
