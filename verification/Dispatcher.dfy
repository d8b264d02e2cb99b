/** The hook dispatcher. The engine calls every PHP function through one of three
    registrations; all of them are proved to do what `Perform`, which knows of no
    wrapper, no callback and no result map, says a call does. */
module Dispatcher {
  import opened Brackets
  import opened CallTrees
  import opened Common
  import opened FrameChain
  import opened HookTable

  /** Frame addresses are distinct among live frames; a frame that has ended may
      leave its address to a later one. */
  ghost predicate Placed(c: Call, live: set<nat>)
    decreases c, 1
  {
    && c.frame.address !in live
    && AllPlaced(c.beforeCalls, live + {c.frame.address})
    && AllPlaced(c.bodyCalls, live + {c.frame.address})
    && AllPlaced(c.afterCalls, live + {c.frame.address})
  }

  ghost predicate AllPlaced(cs: Calls, live: set<nat>)
    decreases cs, 0
  {
    match cs
    case NoCalls => true
    case Calls(c, rest) => Placed(c, live) && AllPlaced(rest, live)
  }

  /** The agent in one PHP process, and the engine that calls it. */
  class Agent {
    const env: Env
    const hooks: HookMap
    /** The two function pointers the agent may replace. */
    const wrapInternal: bool
    const wrapUser: bool
    /** Observer callbacks are registered; and the engine (PHP 8.2 on) calls
        them for internal functions too. */
    const observing: bool
    const observesInternal: bool
    /** RESULT_MAP: what before hooks produced, by frame address. */
    var results: map<nat, Data>
    /** The engine's cache of what `observer_handler` answered. */
    var installed: map<Function, bool>
    var log: seq<Event>

    /** `register_execute_functions` and `register_observer_handlers`. */
    constructor (env: Env, enableObserver: bool, calledForInternal: bool)
      ensures Valid() && fresh(hooks)
      ensures results == map[] && Now() == Seen(map[], [])
      ensures this.env == env && observing == enableObserver && observesInternal == calledForInternal
    {
      this.env := env;
      this.hooks := new HookMap();
      this.wrapInternal := !enableObserver || !calledForInternal;
      this.wrapUser := !enableObserver;
      this.observing := enableObserver;
      this.observesInternal := calledForInternal;
      this.results := map[];
      this.installed := map[];
      this.log := [];
    }

    ghost function Now(): Seen
      reads this, hooks
    {
      Seen(hooks.entries, log)
    }

    /** Each function goes through exactly one of wrapping and observing, and the
        cached handlers agree with the memo. */
    ghost predicate Valid()
      reads this, hooks
    {
      && wrapUser == !observing
      && wrapInternal == !(observing && observesInternal)
      && forall f :: f in installed ==> Installed(hooks.entries, f, installed[f])
    }

    static ghost predicate Installed(memo: Memo, f: Function, handlers: bool) {
      && (handlers ==> !Passed(false, f))
      && (!Passed(false, f) ==> KeyOf(f) in memo && (handlers <==> memo[KeyOf(f)].Some?))
    }

    method CallFunction(c: Call, callers: seq<Frame>, ghost live: set<nat>)
      requires Valid() && Placed(c, live) && results.Keys <= live
      modifies this, hooks
      ensures Valid() && results == old(results) && Grown(old(hooks.entries), hooks.entries)
      ensures Now() == Perform(env, wrapUser, c, callers, old(Now()))
      ensures BeginsAsFound(env, wrapUser, c, callers, old(Now()), Now())
      decreases c, 4
    {
      CallBegins(env, wrapUser, c, callers, Now());
      var kind := c.frame.callee.kind;
      if observing && (kind.User? || observesInternal) {
        CallObserved(c, callers, live);
      } else if kind.Internal? && wrapInternal {
        ExecuteInternal(c, callers, live);
      } else {
        ExecuteEx(c, callers, live);
      }
    }

    method CallAll(cs: Calls, callers: seq<Frame>, ghost live: set<nat>)
      requires Valid() && AllPlaced(cs, live) && results.Keys <= live
      modifies this, hooks
      ensures Valid() && results == old(results) && Grown(old(hooks.entries), hooks.entries)
      ensures Now() == PerformAll(env, wrapUser, cs, callers, old(Now()))
      decreases cs, 0
    {
      match cs
      case NoCalls =>
      case Calls(c, rest) =>
        CallFunction(c, callers, live);
        CallAll(rest, callers, live);
    }

    /** The original function. */
    method RunOriginal(c: Call, callers: seq<Frame>, ghost live: set<nat>)
      requires Valid() && Placed(c, live) && results.Keys <= live + {c.frame.address}
      modifies this, hooks
      ensures Valid() && results == old(results) && Grown(old(hooks.entries), hooks.entries)
      ensures Now() == PerformBody(env, wrapUser, c, callers, old(Now()))
      decreases c, 0
    {
      log := log + [Entered(c.frame)];
      CallAll(c.bodyCalls, [c.frame] + callers, live + {c.frame.address});
      log := log + [Left(c.frame)];
    }

    /** A before hook, caught if it panics: the data it makes, or None. */
    method RunBefore(c: Call, callers: seq<Frame>, pair: HookPair, request: Option<int>,
                     ghost live: set<nat>) returns (r: Option<Data>)
      requires Valid() && Placed(c, live) && results.Keys <= live && request == RequestOf(env, c, callers)
      modifies this, hooks
      ensures Valid() && results == old(results) && Grown(old(hooks.entries), hooks.entries)
      ensures r == c.before && Now() == PerformBefore(env, wrapUser, c, callers, old(Now()), pair)
      decreases c, 0
    {
      log := log + [BeforeRun(c.frame, pair, request)];
      CallAll(c.beforeCalls, [c.frame] + callers, live + {c.frame.address});
      r := c.before;
      match r {
        case None => log := log + [BeforeFailed(c.frame)];
        case Some(data) => log := log + [BeforeDone(c.frame, data)];
      }
    }

    method RunAfter(c: Call, callers: seq<Frame>, pair: HookPair, request: Option<int>, data: Data,
                    ghost live: set<nat>)
      requires Valid() && Placed(c, live) && results.Keys <= live
      modifies this, hooks
      ensures Valid() && results == old(results) && Grown(old(hooks.entries), hooks.entries)
      ensures Now() == PerformAfter(env, wrapUser, c, callers, old(Now()), Bracket(pair, request, data))
      decreases c, 0
    {
      log := log + [AfterRun(c.frame, pair, request, data)];
      CallAll(c.afterCalls, [c.frame] + callers, live + {c.frame.address});
      if c.afterOk {
        log := log + [AfterDone(c.frame)];
      } else {
        log := log + [AfterFailed(c.frame)];
      }
    }

    method ExecuteInternal(c: Call, callers: seq<Frame>, ghost live: set<nat>)
      requires Valid() && Placed(c, live) && results.Keys <= live && c.frame.callee.kind.Internal?
      modifies this, hooks
      ensures Valid() && results == old(results) && Grown(old(hooks.entries), hooks.entries)
      ensures Now() == Perform(env, wrapUser, c, callers, old(Now()))
      decreases c, 3
    {
      var f := c.frame.callee;
      if !f.readable || f.name.None? {
        RunOriginal(c, callers, live);
        return;
      }
      if f.name.value == WRAPPER {
        RunOriginal(c, callers, live);
        return;
      }
      var pair := hooks.SelectPluginHook(env.plugins, env.classesAt(log), KeyOf(f));
      if pair.None? {
        RunOriginal(c, callers, live);
        return;
      }
      var request := RequestIdOf(env.isSwoole, [c.frame] + callers);
      var result := RunBefore(c, callers, pair.value, request, live);
      RunOriginal(c, callers, live);
      // If the before hook failed, the after hook is not executed.
      if result.Some? {
        RunAfter(c, callers, pair.value, request, result.value, live);
      }
    }

    /** `execute_ex`; the caller of user functions when they are not observed. */
    method ExecuteEx(c: Call, callers: seq<Frame>, ghost live: set<nat>)
      requires Valid() && Placed(c, live) && results.Keys <= live && c.frame.callee.kind.User? && wrapUser
      modifies this, hooks
      ensures Valid() && results == old(results) && Grown(old(hooks.entries), hooks.entries)
      ensures Now() == Perform(env, wrapUser, c, callers, old(Now()))
      decreases c, 3
    {
      var f := c.frame.callee;
      if !f.readable || f.name.None? {
        RunOriginal(c, callers, live);
        return;
      }
      var pair := hooks.SelectPluginHook(env.plugins, env.classesAt(log), KeyOf(f));
      if pair.None? {
        RunOriginal(c, callers, live);
        return;
      }
      var request := RequestIdOf(env.isSwoole, [c.frame] + callers);
      var result := RunBefore(c, callers, pair.value, request, live);
      RunOriginal(c, callers, live);
      if result.Some? {
        RunAfter(c, callers, pair.value, request, result.value, live);
      }
    }

    /** The engine asks for handlers at the first call of a function and then
        calls begin and end around the original. */
    method CallObserved(c: Call, callers: seq<Frame>, ghost live: set<nat>)
      requires Valid() && Placed(c, live) && results.Keys <= live
      requires observing && (c.frame.callee.kind.User? || observesInternal)
      modifies this, hooks
      ensures Valid() && results == old(results) && Grown(old(hooks.entries), hooks.entries)
      ensures Now() == Perform(env, wrapUser, c, callers, old(Now()))
      decreases c, 3
    {
      var f := c.frame.callee;
      if f !in installed {
        var answer := ObserverHandler(f);
        installed := installed[f := answer];
      }
      var handlers := installed[f];
      if handlers {
        ObserverBegin(c, callers, live);
      }
      RunOriginal(c, callers, live);
      if handlers {
        ObserverEnd(c, callers, live);
      }
    }

    method ObserverHandler(f: Function) returns (handlers: bool)
      requires Valid()
      modifies hooks
      ensures Valid() && Grown(old(hooks.entries), hooks.entries) && Installed(hooks.entries, f, handlers)
      ensures hooks.entries == if Passed(false, f) then old(hooks.entries)
                               else Remember(old(hooks.entries), env.plugins, env.classesAt(log), KeyOf(f))
    {
      if !f.readable || f.name.None? {
        return false;
      }
      if f.name.value == WRAPPER {
        return false;
      }
      var pair := hooks.SelectPluginHook(env.plugins, env.classesAt(log), KeyOf(f));
      return pair.Some?;
    }

    method ObserverBegin(c: Call, callers: seq<Frame>, ghost live: set<nat>)
      requires Valid() && Placed(c, live) && results.Keys <= live
      requires Installed(hooks.entries, c.frame.callee, true)
      modifies this, hooks
      ensures Valid() && Grown(old(hooks.entries), hooks.entries)
      ensures results == if c.before.Some? then old(results)[c.frame.address := c.before.value] else old(results)
      ensures Now() == PerformBefore(env, wrapUser, c, callers, old(Now()),
                                     old(hooks.entries)[KeyOf(c.frame.callee)].value)
      decreases c, 2
    {
      var f := c.frame.callee;
      if !f.readable || f.name.None? {
        return;
      }
      var pair := hooks.SelectPluginHook(env.plugins, env.classesAt(log), KeyOf(f));
      if pair.None? {
        return;
      }
      var request := RequestIdOf(env.isSwoole, [c.frame] + callers);
      var result := RunBefore(c, callers, pair.value, request, live);
      if result.None? {
        return;
      }
      results := results[c.frame.address := result.value];
    }

    method ObserverEnd(c: Call, callers: seq<Frame>, ghost live: set<nat>)
      requires Valid() && Placed(c, live) && results.Keys <= live + {c.frame.address}
      requires Installed(hooks.entries, c.frame.callee, true)
      modifies this, hooks
      ensures Valid() && Grown(old(hooks.entries), hooks.entries)
      ensures results == old(results) - {c.frame.address}
      ensures Now() == if c.frame.address !in old(results) then old(Now())
                       else PerformAfter(env, wrapUser, c, callers, old(Now()),
                              Bracket(old(hooks.entries)[KeyOf(c.frame.callee)].value, RequestOf(env, c, callers),
                                      old(results)[c.frame.address]))
      decreases c, 2
    {
      if c.frame.address !in results {
        return;
      }
      var data := results[c.frame.address];
      results := results - {c.frame.address};
      var f := c.frame.callee;
      if !f.readable || f.name.None? {
        return;
      }
      var pair := hooks.SelectPluginHook(env.plugins, env.classesAt(log), KeyOf(f));
      if pair.None? {
        return;
      }
      var request := RequestIdOf(env.isSwoole, [c.frame] + callers);
      RunAfter(c, callers, pair.value, request, data, live);
    }
  }
}
