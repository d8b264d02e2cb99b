# A verified model of the SkyWalking PHP agent

The agent loads into a PHP process, puts hooks around PHP functions, keeps one
trace context per request, and reports finished traces to a worker process. This
project models its stateful parts in Dafny and proves what they keep over whole
runs. `dafny verify dfyconfig.toml` checks everything.

| file | what it models |
|---|---|
| `HookTable.dfy` | the plugin search and the memo table in front of it |
| `FrameChain.dfy` | stack frames and the recovery of the request id |
| `Brackets.dfy` | the rules a hooked call obeys, as an automaton over event logs |
| `CallTrees.dfy` | what a call means, and what it adds to the log |
| `Registrations.dfy` | why the three registrations cannot be told apart |
| `Dispatcher.dfy` | the three ways the engine calls functions through the agent |
| `Coroutines.dfy` | observed and wrapped calls on interleaved PHP stacks |
| `Requests.dfy` | swoole requests: contexts, statuses, reports |
| `CurlHeaders.dfy`, `CurlMulti.dfy`, `UrlOrder.dfy`, `CurlBorrow.dfy` | the curl plugin's two maps, and re-entering them |
| `SideTables.dfy`, `Dsn.dfy` | maps keyed by object handles (PDO, Redis); the DSN parser |
| `Wire.dfy`, `Pipeline.dfy` | framing, connections, the worker's bounded queue |
| `Accounts.dfy` | what becomes of every reported item, and that nothing gets stuck |

Shape. What the agent does in place is a class with its fields, and every method
says what the new state is through a function of the old one (`Perform`, `Begun`,
`Called`, `ShutDown`, ...). Runs are sequences of moves over these functions, and
the theorems are inductions over runs. What is expected of a run is told apart
from the maps: by an automaton over the event log, or by a function of the history
(`LastStatus`, `Remembered`, `Expected`, `Hacks`). A call of PHP is a tree: the calls its
before hook, its body and its after hook make, and how the two hooks end.

Assumptions. Frame addresses, object handles and the fds of requests in flight are
distinct while in use, and are used again afterwards. The response of a request
carries the fd of the request. Decoding undoes encoding and may fail on any other
bytes. Hash maps may be walked in any order. In `Pipeline.dfy` a connection on which
a write has failed takes no more bytes; `Wire.dfy` does without
(`FramingSurvivesExactly`). No plugin has a hook for the name of
the swoole wrapper: each plugin in `src/plugin/mod.rs:40-59` has hooks for a fixed
set of other names (`RegistrationsAgree`; `LogsAgreeExactly` does without).

## What the code does not do

These are properties one might expect and the code does not have. Each is stated
exactly, as an if-and-only-if where there is a condition.

- The memo of hooks outlives the classes of a request. A same-named class with other
  ancestors, declared for a later request in the same process, is still answered as
  at its first lookup. The answer is wrong exactly when the ancestors it has now
  would bring the function another hook: `MemoIsSearchExactly`,
  `MemoIsSearchExactlyForTheList`, `LateParentStaysUnhooked`.
- A status set by a request whose init failed stays in the status map and is
  reported for the next request on the fd: `StatusIsItsOwnExactly`, `StaleStatusIsInherited`.
- The shared handler table is overwritten by every hijack, so after a class has been
  hijacked an original destructor runs only for an object on whose handle the first
  hijack of some class is still pending: `OriginalRunsExactly`. There are no more
  such runs than hijacked classes: `OriginalsAreCounted`. The object is the hijacked
  one itself, or a stranger that took over the handle of one that went without its
  destructor: `StrangersOriginalExactly`, `StrangerGetsTheOriginal`.
- When an object goes without its destructor, a later object on its handle
  inherits its DSN: `CoherentExactly`, `CoherentThroughoutExactly`,
  `StaleDsnAfterVanish`. That cannot happen to a Redis peer, which is cleared by
  `free_obj`. But a Redis object that connects again with arguments the agent skips,
  such as a host without a port, keeps its older peer (`StalePeerAfterSkippedConnect`),
  and one whose class is not hijacked yet, as its constructor left the parent's out,
  leaves its peer to the next on its handle (`StalePeerWithoutHijack`).
- The program's curl headers go out with the first request after they were set. The
  next request on the handle sends the agent's header in place of them:
  `UserLinesAreSentOnce`. A handle freed without `curl_close` passes its remembered
  headers on to the next one of its number: `ReusedHandleInherits`,
  `ReusedHandleSendsAnothersLines`. A multi freed without `curl_multi_close` passes on
  its handles and open spans: `FreshMultiStartsEmptyExactly`, `FreshMultiInherits`.
- The spans of a curl multi are kept under handle numbers. When a handle is removed and
  freed while the round is open, as in a rolling window, and the next one gets its
  number and is added, the first one's span is finished with the status of the
  next. A finish is with the span's own handle exactly when the last handle
  added under its number since the round began, if any, is that one:
  `FinishedWithOwnStatusExactly`, `EveryFinishExactly`, `RollingWindowMixesUp`.
- The sender keeps its stream after a failed write. Framing survives exactly when
  nothing is written after a frame was cut short: `FramingSurvivesExactly`,
  `TransientFailureMisaligns`.
- PHP code that runs inside the calls the multi-exec hook makes, as a `__toString`
  of a header object can, makes the borrow panic exactly when it reaches a hooked
  `curl_multi_*` function: `NoDoubleBorrowExactly`, `HeaderObjectsCanPanic`.

## Model

| member | source | states |
|---|---|---|
| HookTable.SelectPlugin | src/plugin/mod.rs:106-138 | The loop with its labelled breaks finds the first plugin of the list that claims the function by class, loaded parent or name prefix, and none exactly when no plugin does. |
| HookTable.ClaimsExactly | src/plugin/mod.rs:110-134 | A plugin claims a function exactly if it lists its class, or its class is loaded and descends from one of the plugin's parents, or its name begins with the plugin's prefix. |
| HookTable.HookMap.SelectPluginHook | src/plugin/mod.rs:77-104 | A lookup adds at most its own key to the memo, replaces nothing, and answers what the memo then has. |
| HookTable.AnswersAreFirstAnswers | src/plugin/mod.rs:94-103 | In any history of lookups with a changing class table, a key is answered as at its first lookup, and that answer is the uncached search of that moment; so before and after come from one pair. |
| HookTable.MemoIsSearchWhileClassesStandStill | src/plugin/mod.rs:77-138 | With a fixed class table the memo cannot be told from the uncached search. |
| HookTable.MemoIsSearchExactly | src/plugin/mod.rs:94-126 | For every history the memo answers as the search would now exactly when the plugin that gets the function through its class's ancestors now, if any, has the hook of the one that did at the first lookup. |
| HookTable.UnchangedAncestorsSuffice | src/plugin/mod.rs:117-126 | So it does whenever the ancestors of the function's own class are the same, whatever else was loaded. |
| HookTable.MemoIsSearchExactlyForTheList | src/plugin/mod.rs:40-59 | For a list like the agent's, where the PSR-3 plugin comes last and alone asks for ancestors: exactly when another plugin claims the function by name, or PSR-3 has no hook for it, or the class descends from the logger interface now as it did then. |
| HookTable.LateParentStaysUnhooked | src/plugin/mod.rs:117-126 | It can fail on lookups the agent does make: a loaded class that has become a logger since its first lookup is answered "no hook". |
| FrameChain.InferRequestId | src/execute.rs:308-333 | The pointer-chasing loop ends on every chain that ends and returns the request id the chain determines. |
| FrameChain.CallsInheritTheRequest | src/execute.rs:313-323 | Whatever non-wrapper frames are pushed on a chain, the request id is that of the chain below. |
| FrameChain.NearestWrapperDecides | src/execute.rs:314-332 | The id is the fd of the nearest enclosing wrapper frame, and none if there is no wrapper. |
| FrameChain.RequestIdIsNearest | src/execute.rs:308-333 | The id of a chain is the fd of the request object that the nearest frame of the wrapper's name has for its first argument, and none without such a frame, such an object or an fd in it. |
| FrameChain.FlagMattersUnderAWrapperOnly | src/execute.rs:309-311 | Turning the swoole flag on during a call changes its id exactly when the nearest wrapper that encloses it has an fd. |
| Dispatcher.Agent.constructor | src/execute.rs:265-277 | Whatever the engine's version and the configuration, each function goes through exactly one of wrapping and observing. |
| Dispatcher.Agent.CallFunction | src/execute.rs:265-277 | Under every registration a call has the log and the memo of the reference semantics, and leaves RESULT_MAP as it was. It begins with the before hook, told the request of the nearest wrapper, exactly when the memo has, or for a new class and name the search in the classes loaded by now finds, a hook pair for its class and its name; and with the original otherwise. |
| Dispatcher.Agent.ExecuteInternal | src/execute.rs:70-155 | Wrapping an internal call does to log, memo and result map what the reference says. |
| Dispatcher.Agent.ExecuteEx | src/execute.rs:157-238 | The same for a user call. |
| Dispatcher.Agent.CallObserved | src/execute.rs:357-510 | Handlers asked for once per function and cached, then begin and end around the original, amount to the same reference, although the before result travels through the map. |
| Dispatcher.Agent.ObserverHandler | src/execute.rs:357-396 | Handlers are installed exactly for functions that have a hook pair and are not the wrapper, and what is installed agrees with the memo from then on. |
| Dispatcher.Agent.ObserverBegin | src/execute.rs:399-450 | The before hook runs with the memoised pair and the caller's request; the map gains its result exactly when it succeeds. |
| Dispatcher.Agent.ObserverEnd | src/execute.rs:453-510 | The after hook runs exactly when the map has a result at the frame's address, with that result and the pair of the before hook; the entry is gone afterwards. |
| CallTrees.PerformKeepsTheRules | src/execute.rs:127-153 | Every call tree, with any mix of failing hooks and of calls made by hooks, is accepted by the bracket automaton and leaves nothing open. At the call's own depth the log gains exactly: before hook and its outcome if the function is hooked, original entered once and left once, after hook and its outcome exactly when the before hook succeeded. At the depths of its callers it gains nothing. |
| CallTrees.CallBegins | src/execute.rs:85-127 | The reference semantics begins a call like that: looked up under its class and its name, unless these cannot be read, there is no name, or it is the wrapper's. |
| CallTrees.EveryCallIsHooked | src/execute.rs:113-153 | At every depth of a call tree: an original is entered right after the before hook of its pair exactly when there is one, every hook is told the request of the nearest wrapper, and an after hook follows exactly a before hook that succeeded, with its pair, request and data. |
| CallTrees.EntersWhatIsReached | src/execute.rs:113-153 | The originals a call enters are those the tree says are reached, once each and in its order, with one choice of hooked functions for the whole tree. |
| Registrations.RegistrationsAgree | src/execute.rs:265-277 | With plugins that have no hook for the wrapper's name, every call tree gives the same log under all registrations, whatever functions are in it and whichever hooks fail; the memos differ at most in "no hook" entries of that name. |
| Registrations.PlainTreesAgree | src/execute.rs:265-277 | With any plugins, trees without user functions of the wrapper's name give the same log and the same memo. |
| Registrations.LogsAgreeExactly | src/execute.rs:182-194 | With any plugins and for every call tree the logs are the same exactly when no user function of the wrapper's name is reached for which there is a hook pair. |
| Registrations.CatchAllTellsApart | src/execute.rs:108-111 | Such a call tells wrapping and observing apart if a plugin hooks whatever it is asked for. |
| Coroutines.RunsAreInvariant | src/execute.rs:352-355 | For every choice of which functions are observed, in every interleaving of any number of stacks with address reuse: live frames stay distinct, each is where the rules say, and what it owes an after hook is in the map if it is observed and on its native stack if it is wrapped. |
| Coroutines.EveryInterleavingKeepsTheRules | src/execute.rs:433-464 | Each stack's log keeps the bracket rules, so every after hook gets pair, request and data of its own before hook; the map is exactly the results owed to observed frames, at their addresses. |
| Coroutines.EveryCallIsHooked | src/execute.rs:420-450 | In every interleaving, on every stack and at every depth: originals of functions with a hook pair are entered right after that pair's before hook, others without, every hook is told the request of the nearest wrapper on its stack, and after hooks follow exactly the before hooks that succeeded. |
| Coroutines.StepsAreLogged | src/execute.rs:433-448 | Each step adds to its stack's log what it is: what the before hook came back with, the original entered and left, how the after hook ended. |
| Coroutines.QuietMeansEmpty | src/execute.rs:462-464 | When all stacks have returned the map is empty. |
| Requests.ToI32 | src/plugin/plugin_swoole.rs:148 | The status cast keeps the low 32 bits and yields a signed 32-bit number. |
| Requests.LongStatus | src/plugin/plugin_swoole.rs:146-148 | A long is recorded by its low 32 bits, as itself if it has no others; an argument that is neither long nor text as 0. |
| Requests.WrittenStatus | src/plugin/plugin_swoole.rs:149-155 | A number written out, with whatever sign, is recorded as itself exactly within 32 bits, and else as 0. |
| Requests.TextStatus | src/plugin/plugin_swoole.rs:149-155 | Any text is recorded as the number it is a signed numeral of, and as 0 if it is none or beyond 32 bits. |
| Requests.ParseReadsBack | src/plugin/plugin_swoole.rs:149-154 | Parsing a status text undoes printing for exactly the numbers of 32 bits, with or without a plus. |
| Requests.SwooleAgent.HackCallback | src/plugin/plugin_swoole.rs:97-108 | The server is given the wrapper; the agent keeps the closure and turns the swoole flag on. |
| Requests.SwooleAgent.SetGlobal | src/context.rs:35-37 | The context replaces whatever the id had, and no other. |
| Requests.SwooleAgent.RemoveGlobal | src/context.rs:39-41 | Exactly the id's context is removed and returned. |
| Requests.SwooleAgent.CreateSpan | src/context.rs:43-57 | A hook gets a span exactly when its request has a context, and no other context changes. |
| Requests.SwooleAgent.RequestInit | src/request.rs:221-254 | Init fails exactly for requests that are not acceptable, and then has installed nothing; in particular neither reading the server array of the request again nor injecting into it can fail once the context is installed. |
| Requests.AcceptedExactly | src/request.rs:283-334 | A request is acceptable exactly if it has all its parts, the URL of host, uri and query with their stand-ins can be parsed, and its trace header, if it is looked at, decoded. |
| Requests.InstalledContextIs | src/request.rs:328-360 | The installed context is the request's own: method and path name the operation, url and method are tags, the trace header is the parent, no span is in it; other contexts stay. |
| Requests.SwooleAgent.InjectServerVar | src/request.rs:379-386 | The server array gains service, instance and trace id of the id's own context, and an error means there is none. |
| Requests.InjectedVariablesAre | src/request.rs:379-386 | Exactly SW_SERVICE_NAME, SW_INSTANCE_NAME and SW_TRACE_ID are set, to service, instance and trace id. |
| Requests.SwooleAgent.HookStatus | src/plugin/plugin_swoole.rs:136-163 | The status map gets the argument as an integer: cast, parsed, or else 0. |
| Requests.SwooleAgent.RequestShutdown | src/request.rs:256-273 | The fd's context and status go, and the context is reported with that status or 200. |
| Requests.SwooleAgent.FinishRequestContext | src/request.rs:362-377 | One report for the id's context if it exists, marked as an error from 400 on; the context is gone. |
| Requests.SwooleAgent.WrapperEnter | src/request.rs:188-201 | The closure registered last is called whatever becomes of init; a context is installed exactly when init succeeds. |
| Requests.SwooleAgent.WrapperLeave | src/request.rs:210-216 | Shutdown happens exactly for requests whose init succeeded. |
| Requests.ContextsAreTheRequestsInFlight | src/request.rs:188-219 | In every interleaving the contexts are exactly those of the requests in flight whose init succeeded, each under its own fd; none leaks, none goes early. |
| Requests.SpansGoToTheirOwnRequest | src/execute.rs:308-333 | However deep below its wrapper, a hook puts its span into the context its own request installed, and into none when init failed. |
| Requests.StatusMapIsHistory | src/request.rs:266-272 | The status map holds for each fd the last status set since the last shutdown on it. |
| Requests.DuringARequest | src/request.rs:201-216 | While a request is in flight nobody else shuts its fd down: what its shutdown finds is its own last status, or what was there before. |
| Requests.ReportedStatus | src/request.rs:256-273 | A request is reported once, with its own last status, or a stale one, or 200, as an error from 400 on; its status and context are gone. |
| Requests.StatusIsItsOwnExactly | src/request.rs:210-216 | "The last status of that request, or 200" is reported exactly when it set one, or nothing stale was on the fd, or a stale 200. |
| Requests.WellBehavedStatus | src/plugin/plugin_swoole.rs:136-163 | It is reported always when every earlier init succeeded and statuses are set during requests only. |
| Requests.WellBehavedIsClean | src/request.rs:266-272 | Then the status map keeps no entry beyond the requests in flight. |
| Requests.StaleStatusIsInherited | src/request.rs:210-216 | Otherwise it is not: a request that sets no status is reported with the 500 of one whose init failed. |
| CurlHeaders.CurlHeaders.HookSetopt | src/plugin/plugin_curl.rs:107-129 | Only a list given with the real header option is remembered; the agent's private option is turned into the real one and remembers nothing. |
| CurlHeaders.CurlHeaders.HookSetoptArray | src/plugin/plugin_curl.rs:131-149 | Any value of the header option is remembered, list or not. |
| CurlHeaders.CurlHeaders.HookClose | src/plugin/plugin_curl.rs:180-193 | The handle's headers are forgotten. |
| CurlHeaders.CurlHeaders.InjectSwHeader | src/plugin/plugin_curl.rs:404-420 | What is remembered is taken and goes to curl with the agent's line behind it, unless there is no trace header or curl refuses the list; passing through the agent's own hook leaves no trace, and what was taken is gone even if curl refuses. |
| CurlHeaders.HeadersAreRemembered | src/plugin/plugin_curl.rs:40-46 | After every run the map is what the program last gave each handle and that has been neither closed nor sent. |
| CurlHeaders.RememberedIsSupplied | src/plugin/plugin_curl.rs:107-149 | Everything in the map was supplied by the program for that handle, never with a line the agent added. |
| CurlHeaders.OneAgentLineAlwaysLast | src/plugin/plugin_curl.rs:404-420 | Every list ever handed to curl is one the program gave that handle, or none, and behind it one line with the trace header of an injection on that handle. |
| CurlHeaders.InjectionExactly | src/plugin/plugin_curl.rs:404-420 | After any run an injection without a trace header does nothing; any other forgets what is remembered and, if that is a list or nothing and curl accepts it, sends it with the trace header's line behind it. |
| CurlHeaders.UserLinesAreSentOnce | src/plugin/plugin_curl.rs:406-408 | An injection sends the program's list exactly when none has happened since it was given; a later one sends the agent's line alone. |
| CurlHeaders.ReusedHandleInherits | src/plugin/plugin_curl.rs:180-193 | A handle that takes over a number sends the agent's line alone exactly when nothing was remembered of its predecessor. |
| CurlHeaders.ReusedHandleSendsAnothersLines | src/plugin/plugin_curl.rs:404-420 | It happens that it sends lines the program gave the freed handle. |
| UrlOrder.SortIsSorted | src/plugin/plugin_curl.rs:265 | Sorting permutes the handles and puts their URLs in descending order. |
| UrlOrder.AtMostExactly | src/plugin/plugin_curl.rs:265 | URLs are compared by the first character in which they differ, and a prefix is the lower one. |
| UrlOrder.SortedIsUnique | src/plugin/plugin_curl.rs:265 | Handles with distinct URLs have one descending arrangement. |
| CurlMulti.CurlMultiHooks.AddHandle | src/plugin/plugin_curl.rs:195-215 | The multi gets this object under the number, in place of any other, and keeps its spans; no span changes place. |
| CurlMulti.CurlMultiHooks.RemoveHandle | src/plugin/plugin_curl.rs:217-237 | The multi loses the object under the number and keeps its spans, that of the number included. |
| CurlMulti.CurlMultiHooks.ExecBefore | src/plugin/plugin_curl.rs:239-285 | The two loops and the sort open one round of spans at the first execution with handles, or fail and drop what they opened; its answer goes to the after hook. |
| CurlMulti.ResultExactly | src/plugin/plugin_curl.rs:246-284 | In every run it answers that curl is executing exactly when the multi has handles and by now an open round, that it is not exactly when there are no handles, and fails exactly when a round is to be opened and something fails for a handle. |
| CurlMulti.FailedExecutionLeaves | src/plugin/plugin_curl.rs:261-277 | A failing execution has opened and dropped the spans up to the first failure in URL order, that handle's own only if its header failed, and injected the headers before it; or has done nothing, if a handle could not be asked. |
| CurlMulti.CurlMultiHooks.OpenSpans | src/plugin/plugin_curl.rs:267-277 | The loop opens spans and injects headers in list order and stops at the first failure. |
| CurlMulti.CurlMultiHooks.ExecAfter | src/plugin/plugin_curl.rs:286-333 | Only a completing execution touches anything: the multi is forgotten and the pop loop finishes every span of it against the object that is under its number by now, or drops it. |
| CurlMulti.CurlMultiHooks.CloseMulti | src/plugin/plugin_curl.rs:337-350 | Closing forgets the multi and drops its open spans. |
| CurlMulti.SpansAreConserved | src/plugin/plugin_curl.rs:57-71 | After every run over any number of multis, spans created are, as a multiset, those finished, dropped and open. |
| CurlMulti.SpansEndOnce | src/plugin/plugin_curl.rs:320-328 | Every span that ended did so once, as finished or as dropped, was created with its number for its handle, and is open nowhere. |
| CurlMulti.FirstExecutionIsAllOrNothing | src/plugin/plugin_curl.rs:246-282 | The first execution opens exactly one span for each registered handle, in descending URL order, exactly when all goes well for all of them; otherwise the multis are unchanged. |
| CurlMulti.WalkLeavesNoTrace | src/plugin/plugin_curl.rs:261-277 | With distinct URLs the outcome does not depend on the order in which the hash map is walked. |
| CurlMulti.CompletionFinishesBackwards | src/plugin/plugin_curl.rs:320-328 | Completion finishes, last first, the spans whose number is still registered; all of them exactly when no finish fails. |
| CurlMulti.OpenSpansAreInOrder | src/plugin/plugin_curl.rs:265-279 | In every run the open spans of a multi are of distinct handles and in descending URL order. |
| CurlMulti.CompletionOfARun | src/plugin/plugin_curl.rs:309-330 | In every run completion erases the multi and finishes its spans in ascending URL order, each against the object registered under its number by now; all those whose number is still registered exactly when no finish fails. |
| CurlMulti.ExecutionCompletes | src/plugin/plugin_curl.rs:286-330 | In every run an execution that begins on a multi with handles and an open round, and ends with OK and nothing running, forgets the multi and leaves none of its spans open, whatever happens in between. |
| CurlMulti.OnlyCompletionEnds | src/plugin/plugin_curl.rs:287-304 | An execution that was not one, has not ended with OK or has something still running, changes nothing. |
| CurlMulti.HandlesAreRegistered | src/plugin/plugin_curl.rs:195-237 | In every run a multi's handles, number by number, are the objects last added and not removed since it was last erased. |
| CurlMulti.RoundStaysUntilErased | src/plugin/plugin_curl.rs:257-259 | Whatever is added, removed or executed, an open round keeps its spans until the multi is closed or completed: no span is opened for a late handle. |
| CurlMulti.RoundIsOpen | src/plugin/plugin_curl.rs:246-282 | In every run a multi has an open round exactly when a first execution has succeeded for all its handles since it was last erased. |
| CurlMulti.FreshMultiStartsEmptyExactly | src/plugin/plugin_curl.rs:337-350 | A multi that takes over a number starts without handles and spans exactly when its predecessor's handles had been removed and no round was open. |
| CurlMulti.FreshMultiInherits | src/plugin/plugin_curl.rs:195-215 | It happens that it does not: a multi freed with a handle in it leaves it to the next. |
| CurlMulti.FinishedWithOwnStatusExactly | src/plugin/plugin_curl.rs:320-328 | In every run a completing execution finishes a span with the status of the handle it was opened for exactly when the last handle added under its number since the round began, if any, is that one; always, if the number was not removed meanwhile. |
| CurlMulti.EveryFinishExactly | src/plugin/plugin_curl.rs:309-330 | Every span ever finished was finished by a completing execution, under that condition. |
| CurlMulti.RollingWindowMixesUp | src/plugin/plugin_curl.rs:63-71 | It fails in a rolling window: add, execute, remove, add another handle of the same number, complete; the first one's span is finished with the other's status. |
| CurlBorrow.HooksAreDisciplined | src/plugin/plugin_curl.rs:87-129 | Every hook borrows a cell it does not hold and lets go of all it borrowed, wherever it stops. |
| CurlBorrow.BorrowsEnd | src/plugin/plugin_curl.rs:246-282 | Through any tree of nested hooked calls, the cells are borrowed afterwards exactly as they were before, panics included. |
| CurlBorrow.UnderABorrow | src/plugin/plugin_curl.rs:246-282 | While the multi map is held, a call panics nowhere exactly when no hook in it touches the map. |
| CurlBorrow.NoDoubleBorrowExactly | src/plugin/plugin_curl.rs:309-330 | A call tree never borrows a borrowed cell exactly when no multi function is reached inside the calls of a multi-exec hook. |
| CurlBorrow.HeaderObjectsCanPanic | src/plugin/plugin_curl.rs:404-420 | A tree that follows the code and panics: the header injection of a multi-exec converts an object that adds a handle. |
| SideTables.SideMaps.Hack | src/plugin/plugin_pdo.rs:171-179 | The class's slot becomes the agent's, and what the slot held, the agent's own destructor included, is saved for the handle. |
| SideTables.SideMaps.Call | src/plugin/plugin_pdo.rs:195-204 | Calling a destructor ends although it may re-enter itself; the handle is gone from both maps and the original has run at most once. |
| SideTables.SideMaps.Destroy | src/plugin/plugin_redis.rs:343-354 | The same through the slot of the object's class, whatever the slot holds. |
| SideTables.SideMaps.PdoConstruct | src/plugin/plugin_pdo.rs:87-115 | Construction with an argument hijacks the class always and records the DSN only when it parses and a span exists; without one it does nothing. |
| SideTables.SideMaps.PdoStatement | src/plugin/plugin_pdo.rs:257-267 | A statement gets its connection's DSN and is hijacked exactly when the connection has a DSN. |
| SideTables.SideMaps.RedisConnect | src/plugin/plugin_redis.rs:209-256 | Connecting replaces the peer of the handle, or leaves it as it is when the arguments are skipped, and touches neither slot nor saved destructors. |
| SideTables.CoherentExactly | src/plugin/plugin_pdo.rs:171-204 | Given coherent tables, one more move keeps every handle's value that of the object now bearing it, exactly when it does not take an object with a value past the agent's destructor, nor connect one in a way the agent skips. |
| SideTables.CoherentThroughoutExactly | src/plugin/plugin_pdo.rs:171-204 | A run is coherent after each of its moves exactly when every move is such a one. |
| SideTables.TidyRunsAreCoherent | src/plugin/plugin_redis.rs:333-354 | So every run of such moves, PDO and Redis alike, ends coherent. |
| SideTables.PdoIsCoherent | src/plugin/plugin_pdo.rs:257-267 | Every PDO run in which the engine calls the destructor of each object is coherent: a statement's DSN is its connection's, and a reused handle never shows an older object's. |
| SideTables.StaleDsnAfterVanish | src/plugin/plugin_pdo.rs:94-105 | Without that call it is not: a connection that should have no DSN shows its predecessor's. |
| SideTables.StalePeerAfterSkippedConnect | src/plugin/plugin_redis.rs:216-251 | Nor is a Redis object that connects again with arguments the agent skips: it shows the older peer. |
| SideTables.StalePeerWithoutHijack | src/plugin/plugin_redis.rs:197-207 | Nor an object on the handle of one whose class no constructor had hijacked: it shows that one's peer. |
| SideTables.OriginalRunsExactly | src/plugin/plugin_pdo.rs:175-177 | In every run, destroying an object runs its original destructor exactly when its class was never hijacked, or the object last hijacked on its handle, and not consumed since by the agent's destructor, was the first of its class to be hijacked, and just once. |
| SideTables.StrangersOriginalExactly | src/plugin/plugin_pdo.rs:195-204 | In a hijacked class the original runs for another than the first hijacked object exactly when such a hijack is pending on the handle from an object that went without its destructor. |
| SideTables.StrangerGetsTheOriginal | src/plugin/plugin_pdo.rs:92-94 | It happens: a connection whose constructor throws, then a subclass object on its handle that skips the constructor. |
| SideTables.OriginalsAreCounted | src/plugin/plugin_pdo.rs:171-204 | In every run, each original that ran was that of an object destroyed before its class was hijacked, or used up the first hijack of a class; no class's is used up twice. |
| SideTables.OriginalRunsForTheFirst | src/plugin/plugin_pdo.rs:175-177 | In runs where every object that goes has its destructor called (`NoVanish`): exactly when its class was never hijacked, or it was itself the first to be, and just once. |
| SideTables.NoneTwice | src/plugin/plugin_redis.rs:343-354 | In every run no object's original destructor runs twice. |
| SideTables.LateOriginalsAreTheFirst | src/plugin/plugin_redis.rs:333-341 | In runs where every object that goes has its destructor called (`NoVanish`): once a class is hijacked, the original runs for nobody but the first hijacked object. |
| SideTables.OneLateOriginalPerClass | src/plugin/plugin_redis.rs:333-341 | In such runs (`NoVanish`) it runs once at most for the whole class from then on. |
| Dsn.FromStr | src/plugin/plugin_pdo.rs:308-355 | The loop over the segments computes the meaning of the string, and errs exactly where the string has none. |
| Dsn.MeaningOfPrint | src/plugin/plugin_pdo.rs:308-355 | Parsing undoes printing for every type without a colon and every list of empty or key=value segments: data source, last host, and last port or the driver's default unless the host has a colon. |
| Dsn.PeerIs | src/plugin/plugin_pdo.rs:313-348 | The peer is the last host, or unknown; with the last port behind it, or 3306, 1521, 1433, 5432 or 0 by the driver, unless the host has a colon. |
| Dsn.MeaningfulExactly | src/plugin/plugin_pdo.rs:308-330 | A string parses exactly when it is such a printing. |
| Dsn.SplitUndoesGlue | src/plugin/plugin_pdo.rs:322 | Splitting recovers any nonempty list of pieces without semicolons. |
| Dsn.GlueUndoesSplit | src/plugin/plugin_pdo.rs:322 | Gluing the pieces of any string gives the string back. |
| Wire.LengthReadsBack | src/channel.rs:34 | Any number that fits into k bytes is read back from its k little-endian bytes. |
| Wire.LowestFirst | src/channel.rs:34 | Its bytes stand lowest first. |
| Wire.BytesReadBack | worker/src/channel.rs:24 | Any k bytes are the little-endian form of the number read from them. |
| Wire.WordIsEightBytes | worker/src/channel.rs:22 | Eight bytes hold exactly the lengths below 2^64. |
| Wire.FirstFrameIs | worker/src/channel.rs:21-28 | Eight bytes and as many as they say, at the front of a stream of frames, are its first frame whole, and the rest is the stream of the others. |
| Wire.Incoming.ReadExact | worker/src/channel.rs:23-27 | Exactly the next n bytes are taken, or the end of the stream is reported. |
| Wire.Incoming.ChannelReceive | worker/src/channel.rs:21-31 | On eight bytes of a length, lowest first, that many bytes and any rest, it returns what these bytes decode to, or that they cannot be decoded, and leaves the rest. On any bytes it yields the next deliverable item, or skips one undecodable body without losing the frame boundary, or finds that nothing deliverable is left. |
| Wire.SentIsDelivered | worker/src/lib.rs:94-107 | The frames of any encodable items, one behind the other, deliver exactly these items. |
| Wire.FrameIsFramed | src/channel.rs:34-35 | A frame is its content's length in eight bytes, lowest first, and the content. |
| Wire.CompleteFramesAreDelivered | worker/src/lib.rs:94-107 | From any prefix of any stream of frames exactly the decodable contents of the complete frames are delivered, in order. |
| Wire.CompleteIs | worker/src/channel.rs:21-28 | The complete frames are as many as fit into the prefix, and no more. |
| Wire.Outgoing.WriteAll | src/channel.rs:34-35 | All bytes are written, or the write fails after those the connection took. |
| Wire.Outgoing.ChannelSend | src/channel.rs:28-39 | One whole frame is written and accepted, or a part of it when a write fails, or nothing when encoding fails; the stream is used again whatever happened. |
| Wire.FramingSurvivesExactly | src/channel.rs:34-36 | Over any sequence of sends, every frame of which anything is written begins at a frame boundary exactly when nothing is written after a frame was cut short. |
| Wire.SurvivingFramesAreDelivered | worker/src/lib.rs:94-107 | Then the receive loop delivers what can be decoded of what was written whole, in order. |
| Wire.TransientFailureMisaligns | src/channel.rs:54-62 | Otherwise it may not: after a write that fails for the time being it delivers what was never sent. |
| Pipeline.FrameIsNext | worker/src/channel.rs:21-31 | In an aligned connection the frame a task has read is that of the next accepted item, and decodes to it. |
| Pipeline.RunsKeepConnInv | src/channel.rs:54-62 | In every interleaving of threads, single writes, reads, tasks, heartbeat and consumer, each connection keeps every byte of every accepted frame in one place and in order, and the queue gets a subsequence of what was received. |
| Pipeline.RunsKeepQueueInv | worker/src/lib.rs:83-117 | The queue never exceeds 255; consumed and queued items are what was let in, in order. |
| Pipeline.NothingIsLostInTransit | worker/src/lib.rs:94-107 | A task with nothing left to read, on a connection with nothing left to write, has received every accepted item and is at a frame boundary. |
| Pipeline.ConsumedInReportOrder | src/channel.rs:28-62 | End to end, in every run, what is consumed of one thread's items is a subsequence of what the thread reported: some are lost, none is made up, repeated, torn or swapped. |
| Accounts.EveryItemIsSent | src/channel.rs:28-62 | In every run, while a process's connection has not broken, the items of a thread that got to be written are all the encodable ones it has reported, but for the one it waits with, in order. |
| Accounts.EveryItemIsAccountedFor | worker/src/lib.rs:94-117 | When such a connection is drained and the queue is open, these items are the thread's consumed and queued ones, in order, and those a full queue has refused, put together. |
| Accounts.CanDrain | worker/src/lib.rs:94-107 | And every such connection can be drained by steps of its holder and its task alone. |
| Accounts.WaitingThreadCanGo | src/channel.rs:54-62 | A thread that waits for the mutex can always be let through: the holder can finish its frame and unlock. |
| Accounts.TasksAreGoneWell | worker/src/lib.rs:94-118 | In every run a task is gone only after the end of its stream or a closed queue. |
| Accounts.ReportsAreHistory | src/channel.rs:54-62 | What threads have reported and wait with, and whether a connection has broken, is what the steps of the run say. |
| Accounts.BeatsAreHistory | worker/src/channel.rs:35-41 | So are the items of the heartbeat. |
| Pipeline.BeatsInOrder | worker/src/channel.rs:35-41 | The same for the heartbeat. |
| Pipeline.QueueIsBoundedAndAccounted | worker/src/lib.rs:83 | While the queue is open, received items of each source are the consumed, the queued and the discarded ones. |
| Pipeline.OnlyAFullQueueDiscards | worker/src/lib.rs:112-117 | In every run each discarded item was refused, in that order, by a send that found exactly 255 items in the open queue, and left them as they were. |
| Pipeline.Queue.Offer | worker/src/channel.rs:35-41 | Sending is the step the machine takes; its error tells a full queue from a closed one. |
| Pipeline.Queue.TryConsume | worker/src/lib.rs:160-162 | The consumer gets the oldest queued item, or nothing from an empty queue. |
| Pipeline.Queue.Serve | worker/src/lib.rs:94-118 | The loop of a connection's task sends exactly the items the bytes deliver, in order, skips undecodable bodies and ends with the stream or the queue. |
| Pipeline.SendAllFills | worker/src/lib.rs:109-117 | Left alone, it fills the free places with the first items and has the others discarded. |

## Left out

- Raw pointers and null `execute_data` or `return_value`, panics across C frames, bailouts, generators: a call is a tree, and a hook ends well or not.
- The SkyWalking tracer, bincode, tokio, DashMap internals, URL parsing: opaque values and the assumptions above.
- Reporters, TLS, forking, signals, INI settings, logging, connecting to the worker: I/O and configuration.
- The fpm request path: its one request has no interleaving.
- The Redis, memcache, memcached, predis, mysqli, amqplib, mongodb and psr3 hook bodies, apart from Redis' side tables: tables of names and straight-line tag filling.
- Poisoned mutexes, and with them the "no hook" answer of a failed lock in `select_plugin_hook`.
- Read errors other than the end of the stream, after which the receive loop goes on trying.
- PHP programs that reassign the fd of a request object under way.
- A change of the swoole flag inside a call tree: `FlagMattersUnderAWrapperOnly` says whom it concerns.
- `curl_reset` and `curl_copy_handle`, which the plugin does not hook; arrays whose next index overflows.
- The curl error and status tags of finished spans.
- User destructors that use the object again while its destructor runs.
- Dispatcher.Agent.CallFunction: the swoole flag is constant during a call tree, and class loading is a function of the log.
- Coroutines.RunsAreInvariant: hooks are answered by one function of the PHP function, which is what the memo's lemmas in HookTable justify.
- Requests.SwooleAgent.RequestInit: header values are strings already; a header or server entry of another type is taken as absent.
- SideTables.SideMaps.PdoConstruct: only the tables; the span it opens is that of Requests.SwooleAgent.CreateSpan.
- Pipeline.RunsKeepConnInv: a connection on which a write failed takes no more bytes; a state machine of single steps on values; the methods of Wire and of Pipeline.Queue say what one thread, task or consumer does in place when it is not interrupted.
- UrlOrder.SortIsSorted: the library sort is modelled as a stable insertion sort.
