/** What calling a PHP function means, told over call trees without wrappers,
    callbacks or result maps, and what a call adds to the log. */
module CallTrees {
  import opened Brackets
  import opened Common
  import opened FrameChain
  import opened HookTable

  /** One execution of a PHP function: the calls its before hook, its body and its
      after hook make, and how the two hooks end. */
  datatype Call = Call(frame: Frame,
                       beforeCalls: Calls, before: Option<Data>,
                       bodyCalls: Calls,
                       afterCalls: Calls, afterOk: bool)
  datatype Calls = NoCalls | Calls(first: Call, rest: Calls)

  /** The plugins, the classes loaded at each moment, and the swoole flag. */
  datatype Env = Env(plugins: seq<Plugin>, classesAt: seq<Event> -> ClassTable, isSwoole: bool)

  /** What can be told from outside: the memo of the hook table and the log. */
  datatype Seen = Seen(memo: Memo, log: seq<Event>)

  function Saw(s: Seen, e: Event): Seen {
    s.(log := s.log + [e])
  }

  function KeyOf(f: Function): Key
    requires f.name.Some?
  {
    Key(f.scope, f.name.value)
  }

  /** Functions for which no hook is looked up. `execute_ex` alone does not test
      for the name of the wrapper. */
  predicate Passed(wrapUser: bool, f: Function) {
    !f.readable || f.name.None? || (f.name.value == WRAPPER && !(wrapUser && f.kind.User?))
  }

  // ---- the reference: a call, told without any dispatching ----

  function Perform(env: Env, wrapUser: bool, c: Call, callers: seq<Frame>, s: Seen): Seen
    decreases c, 2
  {
    if Passed(wrapUser, c.frame.callee) then PerformBody(env, wrapUser, c, callers, s)
    else
      var s1 := LookedUp(env, c, s);
      match s1.memo[KeyOf(c.frame.callee)]
      case None => PerformBody(env, wrapUser, c, callers, s1)
      case Some(pair) => PerformHooked(env, wrapUser, c, callers, s1, pair)
  }

  /** The hook of the function is looked up, in the classes loaded by now. */
  function LookedUp(env: Env, c: Call, s: Seen): (r: Seen)
    requires c.frame.callee.name.Some?
    ensures KeyOf(c.frame.callee) in r.memo && r.log == s.log
  {
    s.(memo := Remember(s.memo, env.plugins, env.classesAt(s.log), KeyOf(c.frame.callee)))
  }

  function RequestOf(env: Env, c: Call, callers: seq<Frame>): Option<int> {
    RequestIdOf(env.isSwoole, [c.frame] + callers)
  }

  function PerformHooked(env: Env, wrapUser: bool, c: Call, callers: seq<Frame>, s: Seen, pair: HookPair): Seen
    decreases c, 1
  {
    var s1 := PerformBefore(env, wrapUser, c, callers, s, pair);
    var s2 := PerformBody(env, wrapUser, c, callers, s1);
    match c.before
    case None => s2
    case Some(data) => PerformAfter(env, wrapUser, c, callers, s2, Bracket(pair, RequestOf(env, c, callers), data))
  }

  function PerformBefore(env: Env, wrapUser: bool, c: Call, callers: seq<Frame>, s: Seen, pair: HookPair): Seen
    decreases c, 0
  {
    var begun := Saw(s, BeforeRun(c.frame, pair, RequestOf(env, c, callers)));
    Saw(PerformAll(env, wrapUser, c.beforeCalls, [c.frame] + callers, begun), BeforeEnd(c))
  }

  function BeforeEnd(c: Call): Event {
    match c.before
    case None => BeforeFailed(c.frame)
    case Some(data) => BeforeDone(c.frame, data)
  }

  function PerformAfter(env: Env, wrapUser: bool, c: Call, callers: seq<Frame>, s: Seen, b: Bracket): Seen
    decreases c, 0
  {
    var begun := Saw(s, AfterRun(c.frame, b.pair, b.request, b.data));
    Saw(PerformAll(env, wrapUser, c.afterCalls, [c.frame] + callers, begun), AfterEnd(c))
  }

  function AfterEnd(c: Call): Event {
    if c.afterOk then AfterDone(c.frame) else AfterFailed(c.frame)
  }

  function PerformBody(env: Env, wrapUser: bool, c: Call, callers: seq<Frame>, s: Seen): Seen
    decreases c, 0
  {
    Saw(PerformAll(env, wrapUser, c.bodyCalls, [c.frame] + callers, Saw(s, Entered(c.frame))), Left(c.frame))
  }

  function PerformAll(env: Env, wrapUser: bool, cs: Calls, callers: seq<Frame>, s: Seen): Seen
    decreases cs, 0
  {
    match cs
    case NoCalls => s
    case Calls(c, rest) => PerformAll(env, wrapUser, rest, callers, Perform(env, wrapUser, c, callers, s))
  }

  // ---- logs and memos grow ----

  /** The memo has only gained entries. */
  ghost predicate Grown(was: Memo, memo: Memo) {
    forall k :: k in was ==> k in memo && memo[k] == was[k]
  }

  lemma {:induction false} CallGrows(env: Env, wrapUser: bool, c: Call, callers: seq<Frame>, s: Seen)
    ensures s.log <= Perform(env, wrapUser, c, callers, s).log
    ensures Grown(s.memo, Perform(env, wrapUser, c, callers, s).memo)
    decreases c, 2
  {
    if Passed(wrapUser, c.frame.callee) {
      BodyGrows(env, wrapUser, c, callers, s);
    } else {
      var s1 := LookedUp(env, c, s);
      match s1.memo[KeyOf(c.frame.callee)]
      case None => BodyGrows(env, wrapUser, c, callers, s1);
      case Some(pair) => HookedGrows(env, wrapUser, c, callers, s1, pair);
    }
  }

  /** A hooked call puts its before hook first. */
  lemma {:induction false} HookedGrows(env: Env, wrapUser: bool, c: Call, callers: seq<Frame>, s: Seen, pair: HookPair)
    ensures s.log + [BeforeRun(c.frame, pair, RequestOf(env, c, callers))]
         <= PerformHooked(env, wrapUser, c, callers, s, pair).log
    ensures Grown(s.memo, PerformHooked(env, wrapUser, c, callers, s, pair).memo)
    decreases c, 1
  {
    var chain := [c.frame] + callers;
    AllGrow(env, wrapUser, c.beforeCalls, chain, Saw(s, BeforeRun(c.frame, pair, RequestOf(env, c, callers))));
    var s1 := PerformBefore(env, wrapUser, c, callers, s, pair);
    BodyGrows(env, wrapUser, c, callers, s1);
    if c.before.Some? {
      var after := AfterRun(c.frame, pair, RequestOf(env, c, callers), c.before.value);
      AllGrow(env, wrapUser, c.afterCalls, chain, Saw(PerformBody(env, wrapUser, c, callers, s1), after));
    }
  }

  /** A call that is not hooked enters its original first. */
  lemma {:induction false} BodyGrows(env: Env, wrapUser: bool, c: Call, callers: seq<Frame>, s: Seen)
    ensures s.log + [Entered(c.frame)] <= PerformBody(env, wrapUser, c, callers, s).log
    ensures Grown(s.memo, PerformBody(env, wrapUser, c, callers, s).memo)
    decreases c, 0
  {
    AllGrow(env, wrapUser, c.bodyCalls, [c.frame] + callers, Saw(s, Entered(c.frame)));
  }

  lemma {:induction false} AllGrow(env: Env, wrapUser: bool, cs: Calls, callers: seq<Frame>, s: Seen)
    ensures s.log <= PerformAll(env, wrapUser, cs, callers, s).log
    ensures Grown(s.memo, PerformAll(env, wrapUser, cs, callers, s).memo)
    decreases cs, 0
  {
    match cs
    case NoCalls =>
    case Calls(c, rest) =>
      CallGrows(env, wrapUser, c, callers, s);
      AllGrow(env, wrapUser, rest, callers, Perform(env, wrapUser, c, callers, s));
  }

  /** And goes on from where its before hook and its original have ended. */
  lemma HookedGrowsOn(env: Env, wrapUser: bool, c: Call, callers: seq<Frame>, s: Seen, pair: HookPair)
    ensures var s1 := PerformBefore(env, wrapUser, c, callers, s, pair);
            var s2 := PerformBody(env, wrapUser, c, callers, s1);
            var s3 := PerformHooked(env, wrapUser, c, callers, s, pair);
            s1.log <= s2.log <= s3.log && Grown(s1.memo, s2.memo) && Grown(s2.memo, s3.memo)
  {
    var s1 := PerformBefore(env, wrapUser, c, callers, s, pair);
    BodyGrows(env, wrapUser, c, callers, s1);
    if c.before.Some? {
      var after := AfterRun(c.frame, pair, RequestOf(env, c, callers), c.before.value);
      AllGrow(env, wrapUser, c.afterCalls, [c.frame] + callers, Saw(PerformBody(env, wrapUser, c, callers, s1), after));
    }
  }

  // ---- what a call adds to the log ----

  /** The hook pair a call is made with. */
  function HookFor(env: Env, wrapUser: bool, c: Call, s: Seen): Option<HookPair> {
    if Passed(wrapUser, c.frame.callee) then None else LookedUp(env, c, s).memo[KeyOf(c.frame.callee)]
  }

  /** The events of the call itself, without those of the calls it makes. */
  function OwnEvents(env: Env, c: Call, callers: seq<Frame>, hook: Option<HookPair>): seq<Event> {
    var body := [Entered(c.frame), Left(c.frame)];
    match hook
    case None => body
    case Some(pair) =>
      var request := RequestOf(env, c, callers);
      match c.before
      case None => [BeforeRun(c.frame, pair, request), BeforeFailed(c.frame)] + body
      case Some(data) =>
        [BeforeRun(c.frame, pair, request), BeforeDone(c.frame, data)] + body
        + [AfterRun(c.frame, pair, request, data), if c.afterOk then AfterDone(c.frame) else AfterFailed(c.frame)]
  }

  /** Every call keeps the bracket rules and leaves nothing open. At its own depth
      the log gains exactly the call's own events: the original runs once, after
      the before hook if there is one, and the after hook follows exactly when
      the before hook succeeded. Below its depth the log gains nothing. */
  lemma {:induction false} PerformKeepsTheRules(env: Env, wrapUser: bool, c: Call, callers: seq<Frame>, s: Seen,
                                               stack: seq<Open>)
    requires OpenAfter(s.log) == Some(stack) && MayCall(stack)
    ensures var t := Perform(env, wrapUser, c, callers, s);
            && OpenAfter(t.log) == Some(stack)
            && Gains(s.log, t.log, |stack|, OwnEvents(env, c, callers, HookFor(env, wrapUser, c, s)))
    decreases c, 2
  {
    if Passed(wrapUser, c.frame.callee) {
      BodyKeepsTheRules(env, wrapUser, c, callers, s, stack, None);
    } else {
      var s1 := LookedUp(env, c, s);
      match s1.memo[KeyOf(c.frame.callee)]
      case None => BodyKeepsTheRules(env, wrapUser, c, callers, s1, stack, None);
      case Some(pair) => HookedKeepsTheRules(env, wrapUser, c, callers, s1, pair, stack);
    }
  }

  /** What a call owes once its before hook has ended. */
  function Owed(env: Env, c: Call, callers: seq<Frame>, pair: HookPair): Option<Bracket> {
    match c.before
    case None => None
    case Some(data) => Some(Bracket(pair, RequestOf(env, c, callers), data))
  }

  lemma {:induction false} HookedKeepsTheRules(env: Env, wrapUser: bool, c: Call, callers: seq<Frame>, s: Seen,
                                              pair: HookPair, stack: seq<Open>)
    requires OpenAfter(s.log) == Some(stack) && MayCall(stack)
    ensures var t := PerformHooked(env, wrapUser, c, callers, s, pair);
            OpenAfter(t.log) == Some(stack) && Gains(s.log, t.log, |stack|, OwnEvents(env, c, callers, Some(pair)))
    decreases c, 1
  {
    var owed, n, body := Owed(env, c, callers, pair), |stack|, [Entered(c.frame), Left(c.frame)];
    var before := [BeforeRun(c.frame, pair, RequestOf(env, c, callers)), BeforeEnd(c)];
    BeforeKeepsTheRules(env, wrapUser, c, callers, s, pair, stack);
    var s1 := PerformBefore(env, wrapUser, c, callers, s, pair);
    BodyKeepsTheRules(env, wrapUser, c, callers, s1, stack, Some(owed));
    var s2 := PerformBody(env, wrapUser, c, callers, s1);
    GainsBoth(s.log, s1.log, s2.log, n, before, body);
    if c.before.Some? {
      AfterKeepsTheRules(env, wrapUser, c, callers, s2, owed.value, stack);
      var after := [AfterRun(c.frame, pair, RequestOf(env, c, callers), c.before.value), AfterEnd(c)];
      GainsBoth(s.log, s2.log, PerformAfter(env, wrapUser, c, callers, s2, owed.value).log, n, before + body, after);
    } else {
      assert before + body + [] == before + body;
    }
  }

  lemma {:induction false} BeforeKeepsTheRules(env: Env, wrapUser: bool, c: Call, callers: seq<Frame>, s: Seen,
                                              pair: HookPair, stack: seq<Open>)
    requires OpenAfter(s.log) == Some(stack) && MayCall(stack)
    ensures var t := PerformBefore(env, wrapUser, c, callers, s, pair);
            && OpenAfter(t.log) == Some(stack + [Open(c.frame, Ready(Owed(env, c, callers, pair)))])
            && Gains(s.log, t.log, |stack|, [BeforeRun(c.frame, pair, RequestOf(env, c, callers)), BeforeEnd(c)])
    decreases c, 0
  {
    var begun := BeforeRun(c.frame, pair, RequestOf(env, c, callers));
    var inBefore := stack + [Open(c.frame, InBefore(pair, begun.request))];
    OpenAfterSnoc(s.log, begun);
    AllKeepTheRules(env, wrapUser, c.beforeCalls, [c.frame] + callers, Saw(s, begun), inBefore);
    var calls := PerformAll(env, wrapUser, c.beforeCalls, [c.frame] + callers, Saw(s, begun)).log;
    OpenAfterSnoc(calls, BeforeEnd(c));
    InBeforeEnds(stack, c.frame, pair, begun.request);
    GainsTwo(s.log, begun, calls, BeforeEnd(c), stack, inBefore, |stack|);
  }

  lemma {:induction false} AfterKeepsTheRules(env: Env, wrapUser: bool, c: Call, callers: seq<Frame>, s: Seen,
                                             b: Bracket, stack: seq<Open>)
    requires OpenAfter(s.log) == Some(stack + [Open(c.frame, Owes(b))])
    ensures var t := PerformAfter(env, wrapUser, c, callers, s, b);
            && OpenAfter(t.log) == Some(stack)
            && Gains(s.log, t.log, |stack|, [AfterRun(c.frame, b.pair, b.request, b.data), AfterEnd(c)])
    decreases c, 0
  {
    var begun := AfterRun(c.frame, b.pair, b.request, b.data);
    var inAfter := stack + [Open(c.frame, InAfter)];
    AfterBegins(stack, c.frame, b);
    OpenAfterSnoc(s.log, begun);
    assert Init(inAfter) == stack;
    AllKeepTheRules(env, wrapUser, c.afterCalls, [c.frame] + callers, Saw(s, begun), inAfter);
    var calls := PerformAll(env, wrapUser, c.afterCalls, [c.frame] + callers, Saw(s, begun)).log;
    OpenAfterSnoc(calls, AfterEnd(c));
    GainsTwo(s.log, begun, calls, AfterEnd(c), stack + [Open(c.frame, Owes(b))], inAfter, |stack|);
  }

  /** `ready` is None for a call without hooks, and otherwise what it owes. */
  lemma {:induction false} BodyKeepsTheRules(env: Env, wrapUser: bool, c: Call, callers: seq<Frame>, s: Seen,
                                            stack: seq<Open>, ready: Option<Option<Bracket>>)
    requires ready.None? ==> OpenAfter(s.log) == Some(stack) && MayCall(stack)
    requires ready.Some? ==> OpenAfter(s.log) == Some(stack + [Open(c.frame, Ready(ready.value))])
    ensures var t := PerformBody(env, wrapUser, c, callers, s);
            && OpenAfter(t.log)
            == Some(if ready.Some? && ready.value.Some? then stack + [Open(c.frame, Owes(ready.value.value))]
                    else stack)
            && Gains(s.log, t.log, |stack|, [Entered(c.frame), Left(c.frame)])
    decreases c, 0
  {
    var owed := if ready.Some? then ready.value else None;
    var was := if ready.Some? then stack + [Open(c.frame, Ready(ready.value))] else stack;
    var inBody := stack + [Open(c.frame, InBody(owed))];
    BodyBegins(stack, c.frame, owed);
    OpenAfterSnoc(s.log, Entered(c.frame));
    AllKeepTheRules(env, wrapUser, c.bodyCalls, [c.frame] + callers, Saw(s, Entered(c.frame)), inBody);
    var calls := PerformAll(env, wrapUser, c.bodyCalls, [c.frame] + callers, Saw(s, Entered(c.frame))).log;
    OpenAfterSnoc(calls, Left(c.frame));
    BodyEnds(stack, c.frame, owed);
    GainsTwo(s.log, Entered(c.frame), calls, Left(c.frame), was, inBody, |stack|);
  }

  lemma {:induction false} AllKeepTheRules(env: Env, wrapUser: bool, cs: Calls, callers: seq<Frame>, s: Seen,
                                          stack: seq<Open>)
    requires OpenAfter(s.log) == Some(stack) && MayCall(stack)
    ensures var t := PerformAll(env, wrapUser, cs, callers, s);
            OpenAfter(t.log) == Some(stack) && SameBelow(s.log, t.log, |stack|)
    decreases cs, 0
  {
    match cs
    case NoCalls =>
    case Calls(c, rest) =>
      PerformKeepsTheRules(env, wrapUser, c, callers, s, stack);
      AllKeepTheRules(env, wrapUser, rest, callers, Perform(env, wrapUser, c, callers, s), stack);
  }

  // ---- under which key a function is looked up, and what comes of it ----

  /** Hooks are looked up for functions whose name and class can be read and that do
      not bear the wrapper's name; wrapping does not except that name for user
      functions. */
  predicate IsLookedUp(wrapUser: bool, f: Function) {
    f.readable && f.name.Some? && (f.name.value != WRAPPER || (wrapUser && f.kind.User?))
  }

  /** The hook pair a memo has for a function, under its class and its name. */
  function SelectIn(wrapUser: bool, memo: Memo): Function -> Option<HookPair> {
    (f: Function) =>
      if IsLookedUp(wrapUser, f) && Key(f.scope, f.name.value) in memo then memo[Key(f.scope, f.name.value)] else None
  }

  /** A call from s to t begins with the before hook, told the request of the nearest
      wrapper, exactly when the memo, or for a new class and name the search in the
      classes loaded by now, has a hook pair; and otherwise with the original.
      The answer is in the memo afterwards. */
  ghost predicate BeginsAsFound(env: Env, wrapUser: bool, c: Call, callers: seq<Frame>, s: Seen, t: Seen) {
    var f := c.frame.callee;
    if !IsLookedUp(wrapUser, f) then s.log + [Entered(c.frame)] <= t.log
    else
      var key := Key(f.scope, f.name.value);
      var found := if key in s.memo then s.memo[key] else Search(env.plugins, env.classesAt(s.log), key);
      && key in t.memo && t.memo[key] == found
      && match found
         case None => s.log + [Entered(c.frame)] <= t.log
         case Some(pair) =>
           exists request ::
             NearestSays(env.isSwoole, [c.frame] + callers, request)
                 && s.log + [BeforeRun(c.frame, pair, request)] <= t.log
  }

  lemma CallBegins(env: Env, wrapUser: bool, c: Call, callers: seq<Frame>, s: Seen)
    ensures BeginsAsFound(env, wrapUser, c, callers, s, Perform(env, wrapUser, c, callers, s))
  {
    var f := c.frame.callee;
    if !IsLookedUp(wrapUser, f) {
      BodyGrows(env, wrapUser, c, callers, s);
    } else {
      var s1 := LookedUp(env, c, s);
      match s1.memo[Key(f.scope, f.name.value)]
      case None => BodyGrows(env, wrapUser, c, callers, s1);
      case Some(pair) =>
        HookedGrows(env, wrapUser, c, callers, s1, pair);
        RequestIdIsNearest(env.isSwoole, [c.frame] + callers);
    }
  }

  // ---- every call of a tree is hooked as it should be ----

  /** The log so far keeps the rules, and the calls in it have begun well. */
  ghost predicate SoFar(env: Env, wrapUser: bool, s: Seen, stack: seq<Open>, memo: Memo) {
    OpenAfter(s.log) == Some(stack) && AllBeginWell(SelectIn(wrapUser, memo), env.isSwoole, s.log)
  }

  lemma {:induction false} CallBeginsWell(env: Env, wrapUser: bool, c: Call, callers: seq<Frame>, s: Seen,
                                         stack: seq<Open>, memo: Memo)
    requires SoFar(env, wrapUser, s, stack, memo) && MayCall(stack) && FramesOf(stack) == callers
    requires Grown(Perform(env, wrapUser, c, callers, s).memo, memo)
    ensures SoFar(env, wrapUser, Perform(env, wrapUser, c, callers, s), stack, memo)
    decreases c, 2
  {
    PerformKeepsTheRules(env, wrapUser, c, callers, s, stack);
    var f := c.frame.callee;
    if Passed(wrapUser, f) {
      assert SelectIn(wrapUser, memo)(f) == None;
      BodyBeginsWell(env, wrapUser, c, callers, s, stack, None, memo);
    } else {
      var s1 := LookedUp(env, c, s);
      match s1.memo[KeyOf(f)] {
        case None =>
          BodyGrows(env, wrapUser, c, callers, s1);
          BodyBeginsWell(env, wrapUser, c, callers, s1, stack, None, memo);
        case Some(pair) =>
          HookedGrows(env, wrapUser, c, callers, s1, pair);
          HookedBeginsWell(env, wrapUser, c, callers, s1, pair, stack, memo);
      }
    }
  }

  lemma {:induction false} HookedBeginsWell(env: Env, wrapUser: bool, c: Call, callers: seq<Frame>, s: Seen,
                                           pair: HookPair, stack: seq<Open>, memo: Memo)
    requires SoFar(env, wrapUser, s, stack, memo) && MayCall(stack) && FramesOf(stack) == callers
    requires SelectIn(wrapUser, memo)(c.frame.callee) == Some(pair)
    requires Grown(PerformHooked(env, wrapUser, c, callers, s, pair).memo, memo)
    ensures AllBeginWell(SelectIn(wrapUser, memo), env.isSwoole, PerformHooked(env, wrapUser, c, callers, s, pair).log)
    decreases c, 1
  {
    HookedGrowsOn(env, wrapUser, c, callers, s, pair);
    BeforeKeepsTheRules(env, wrapUser, c, callers, s, pair, stack);
    BeforeBeginsWell(env, wrapUser, c, callers, s, pair, stack, memo);
    var s1, owed := PerformBefore(env, wrapUser, c, callers, s, pair), Owed(env, c, callers, pair);
    BodyKeepsTheRules(env, wrapUser, c, callers, s1, stack, Some(owed));
    BodyBeginsWell(env, wrapUser, c, callers, s1, stack, Some(owed), memo);
    if c.before.Some? {
      AfterBeginsWell(env, wrapUser, c, callers, PerformBody(env, wrapUser, c, callers, s1), owed.value, stack, memo);
    }
  }

  /** The calls a hook or an original makes, between two events of its own call. */
  lemma {:induction false} CallsBetween(env: Env, wrapUser: bool, c: Call, cs: Calls, callers: seq<Frame>, s: Seen,
                                       begun: Event, ended: Event, was: seq<Open>, stack: seq<Open>, phase: Phase,
                                       memo: Memo)
    requires SoFar(env, wrapUser, s, was, memo) && BeginsWell(SelectIn(wrapUser, memo), env.isSwoole, was, begun)
    requires Step(was, begun) == Some(stack + [Open(c.frame, phase)]) && MayCall(stack + [Open(c.frame, phase)])
    requires FramesOf(stack) == callers && !Begins(stack + [Open(c.frame, phase)], ended)
    requires Grown(PerformAll(env, wrapUser, cs, [c.frame] + callers, Saw(s, begun)).memo, memo)
    ensures AllBeginWell(SelectIn(wrapUser, memo), env.isSwoole,
                         PerformAll(env, wrapUser, cs, [c.frame] + callers, Saw(s, begun)).log + [ended])
    decreases cs, 1
  {
    var select, inside := SelectIn(wrapUser, memo), stack + [Open(c.frame, phase)];
    OpenAfterSnoc(s.log, begun);
    AllBeginWellSnoc(select, env.isSwoole, s.log, was, begun);
    FramesOfSnoc(stack, Open(c.frame, phase));
    AllBeginWellInside(env, wrapUser, cs, [c.frame] + callers, Saw(s, begun), inside, memo);
    AllBeginWellSnoc(select, env.isSwoole, PerformAll(env, wrapUser, cs, [c.frame] + callers, Saw(s, begun)).log,
                     inside, ended);
  }

  lemma {:induction false} BeforeBeginsWell(env: Env, wrapUser: bool, c: Call, callers: seq<Frame>, s: Seen,
                                           pair: HookPair, stack: seq<Open>, memo: Memo)
    requires SoFar(env, wrapUser, s, stack, memo) && MayCall(stack) && FramesOf(stack) == callers
    requires SelectIn(wrapUser, memo)(c.frame.callee) == Some(pair)
    requires Grown(PerformBefore(env, wrapUser, c, callers, s, pair).memo, memo)
    ensures AllBeginWell(SelectIn(wrapUser, memo), env.isSwoole, PerformBefore(env, wrapUser, c, callers, s, pair).log)
    decreases c, 0
  {
    var request := RequestOf(env, c, callers);
    RequestIdIsNearest(env.isSwoole, [c.frame] + callers);
    CallsBetween(env, wrapUser, c, c.beforeCalls, callers, s, BeforeRun(c.frame, pair, request), BeforeEnd(c),
                 stack, stack, InBefore(pair, request), memo);
  }

  lemma {:induction false} BodyBeginsWell(env: Env, wrapUser: bool, c: Call, callers: seq<Frame>, s: Seen,
                                         stack: seq<Open>, ready: Option<Option<Bracket>>, memo: Memo)
    requires AllBeginWell(SelectIn(wrapUser, memo), env.isSwoole, s.log) && FramesOf(stack) == callers
    requires ready.None? ==>
               OpenAfter(s.log) == Some(stack) && MayCall(stack) && SelectIn(wrapUser, memo)(c.frame.callee) == None
    requires ready.Some? ==> OpenAfter(s.log) == Some(stack + [Open(c.frame, Ready(ready.value))])
    requires Grown(PerformBody(env, wrapUser, c, callers, s).memo, memo)
    ensures AllBeginWell(SelectIn(wrapUser, memo), env.isSwoole, PerformBody(env, wrapUser, c, callers, s).log)
    decreases c, 0
  {
    var owed := if ready.Some? then ready.value else None;
    var was := if ready.Some? then stack + [Open(c.frame, Ready(ready.value))] else stack;
    BodyBegins(stack, c.frame, owed);
    CallsBetween(env, wrapUser, c, c.bodyCalls, callers, s, Entered(c.frame), Left(c.frame), was, stack, InBody(owed),
                 memo);
  }

  lemma {:induction false} AfterBeginsWell(env: Env, wrapUser: bool, c: Call, callers: seq<Frame>, s: Seen,
                                          b: Bracket, stack: seq<Open>, memo: Memo)
    requires SoFar(env, wrapUser, s, stack + [Open(c.frame, Owes(b))], memo) && FramesOf(stack) == callers
    requires Grown(PerformAfter(env, wrapUser, c, callers, s, b).memo, memo)
    ensures AllBeginWell(SelectIn(wrapUser, memo), env.isSwoole, PerformAfter(env, wrapUser, c, callers, s, b).log)
    decreases c, 0
  {
    AfterBegins(stack, c.frame, b);
    CallsBetween(env, wrapUser, c, c.afterCalls, callers, s, AfterRun(c.frame, b.pair, b.request, b.data), AfterEnd(c),
                 stack + [Open(c.frame, Owes(b))], stack, InAfter, memo);
  }

  lemma {:induction false} AllBeginWellInside(env: Env, wrapUser: bool, cs: Calls, callers: seq<Frame>, s: Seen,
                                             stack: seq<Open>, memo: Memo)
    requires SoFar(env, wrapUser, s, stack, memo) && MayCall(stack) && FramesOf(stack) == callers
    requires Grown(PerformAll(env, wrapUser, cs, callers, s).memo, memo)
    ensures SoFar(env, wrapUser, PerformAll(env, wrapUser, cs, callers, s), stack, memo)
    decreases cs, 0
  {
    match cs
    case NoCalls =>
    case Calls(c, rest) =>
      var s1 := Perform(env, wrapUser, c, callers, s);
      AllGrow(env, wrapUser, rest, callers, s1);
      CallBeginsWell(env, wrapUser, c, callers, s, stack, memo);
      AllBeginWellInside(env, wrapUser, rest, callers, s1, stack, memo);
  }

  /** At every depth of a call tree that runs on an empty stack: originals of
      functions the memo has a hook pair for are entered after the before hook of
      that pair, all others without; each hook is told the request of the nearest
      wrapper; and after hooks follow exactly the before hooks that succeeded. */
  lemma EveryCallIsHooked(env: Env, wrapUser: bool, c: Call, memo: Memo, d: nat)
    ensures var t := Perform(env, wrapUser, c, [], Seen(memo, []));
            var select, events := SelectIn(wrapUser, t.memo), AtDepth(t.log, d);
            AllBeginWell(select, env.isSwoole, t.log) && CallsAreHooked(select, events) && AllFollowed(events)
  {
    var t := Perform(env, wrapUser, c, [], Seen(memo, []));
    var select := SelectIn(wrapUser, t.memo);
    CallBeginsWell(env, wrapUser, c, [], Seen(memo, []), [], t.memo);
    LogIsHooked(select, env.isSwoole, t.log, d);
    AfterHooksFollow(select, AtDepth(t.log, d), None);
  }

  // ---- the originals that run, in order, told by the tree ----

  /** The frames whose originals a log says have been entered. */
  function EnteredFrames(log: seq<Event>): seq<Frame> {
    if log == [] then []
    else EnteredFrames(Init(log)) + if Last(log).Entered? then [Last(log).frame] else []
  }

  lemma EnteredSnoc(log: seq<Event>, e: Event)
    ensures EnteredFrames(log + [e]) == EnteredFrames(log) + if e.Entered? then [e.frame] else []
  {
    assert Init(log + [e]) == log;
  }

  /** The frames of a call tree that are reached: a function's hooks run only if it
      is hooked, and its after hook only if its before hook succeeds. */
  function Reached(c: Call, hooked: Function -> bool): seq<Frame>
    decreases c, 1
  {
    if hooked(c.frame.callee) then HookedReached(c, hooked) else [c.frame] + AllReached(c.bodyCalls, hooked)
  }

  function HookedReached(c: Call, hooked: Function -> bool): seq<Frame>
    decreases c, 0
  {
    AllReached(c.beforeCalls, hooked) + ([c.frame] + AllReached(c.bodyCalls, hooked))
    + if c.before.Some? then AllReached(c.afterCalls, hooked) else []
  }

  function AllReached(cs: Calls, hooked: Function -> bool): seq<Frame>
    decreases cs, 0
  {
    match cs
    case NoCalls => []
    case Calls(c, rest) => Reached(c, hooked) + AllReached(rest, hooked)
  }

  /** The functions that a memo has a hook pair for. */
  function HookedIn(wrapUser: bool, memo: Memo): Function -> bool {
    (f: Function) => SelectIn(wrapUser, memo)(f).Some?
  }

  /** A call enters the originals of its tree once each, in the order of the tree,
      and no others; which functions are hooked is settled for the whole tree. */
  lemma EntersWhatIsReached(env: Env, wrapUser: bool, c: Call, callers: seq<Frame>, s: Seen)
    ensures var t := Perform(env, wrapUser, c, callers, s);
            EnteredFrames(t.log) == EnteredFrames(s.log) + Reached(c, HookedIn(wrapUser, t.memo))
  {
    CallEnters(env, wrapUser, c, callers, s, Perform(env, wrapUser, c, callers, s).memo);
  }

  lemma {:induction false} CallEnters(env: Env, wrapUser: bool, c: Call, callers: seq<Frame>, s: Seen, memo: Memo)
    requires Grown(Perform(env, wrapUser, c, callers, s).memo, memo)
    ensures EnteredFrames(Perform(env, wrapUser, c, callers, s).log)
         == EnteredFrames(s.log) + Reached(c, HookedIn(wrapUser, memo))
    decreases c, 2
  {
    if Passed(wrapUser, c.frame.callee) {
      assert SelectIn(wrapUser, memo)(c.frame.callee) == None;
      BodyEnters(env, wrapUser, c, callers, s, memo);
    } else {
      var s1 := LookedUp(env, c, s);
      match s1.memo[KeyOf(c.frame.callee)]
      case None =>
        BodyGrows(env, wrapUser, c, callers, s1);
        assert SelectIn(wrapUser, memo)(c.frame.callee) == None;
        BodyEnters(env, wrapUser, c, callers, s1, memo);
      case Some(pair) =>
        HookedGrows(env, wrapUser, c, callers, s1, pair);
        assert SelectIn(wrapUser, memo)(c.frame.callee) == Some(pair);
        HookedEnters(env, wrapUser, c, callers, s1, pair, memo);
    }
  }

  lemma Regrouped(a: seq<Frame>, b: seq<Frame>, c: seq<Frame>, d: seq<Frame>)
    ensures a + b + c + d == a + (b + c + d) && a + b + c == a + (b + c + [])
  {
  }

  lemma {:induction false} HookedEnters(env: Env, wrapUser: bool, c: Call, callers: seq<Frame>, s: Seen,
                                       pair: HookPair, memo: Memo)
    requires Grown(PerformHooked(env, wrapUser, c, callers, s, pair).memo, memo)
    ensures EnteredFrames(PerformHooked(env, wrapUser, c, callers, s, pair).log)
         == EnteredFrames(s.log) + HookedReached(c, HookedIn(wrapUser, memo))
    decreases c, 1
  {
    var hooked := HookedIn(wrapUser, memo);
    HookedGrowsOn(env, wrapUser, c, callers, s, pair);
    BeforeEnters(env, wrapUser, c, callers, s, pair, memo);
    var s1 := PerformBefore(env, wrapUser, c, callers, s, pair);
    BodyEnters(env, wrapUser, c, callers, s1, memo);
    var after := if c.before.Some? then AllReached(c.afterCalls, hooked) else [];
    Regrouped(EnteredFrames(s.log), AllReached(c.beforeCalls, hooked), [c.frame] + AllReached(c.bodyCalls, hooked),
              after);
    if c.before.Some? {
      var s2, b := PerformBody(env, wrapUser, c, callers, s1),
          Bracket(pair, RequestOf(env, c, callers), c.before.value);
      AfterEnters(env, wrapUser, c, callers, s2, b, memo);
    }
  }

  lemma {:induction false} BeforeEnters(env: Env, wrapUser: bool, c: Call, callers: seq<Frame>, s: Seen,
                                       pair: HookPair, memo: Memo)
    requires Grown(PerformBefore(env, wrapUser, c, callers, s, pair).memo, memo)
    ensures EnteredFrames(PerformBefore(env, wrapUser, c, callers, s, pair).log)
         == EnteredFrames(s.log) + AllReached(c.beforeCalls, HookedIn(wrapUser, memo))
    decreases c, 0
  {
    var chain, begun := [c.frame] + callers, BeforeRun(c.frame, pair, RequestOf(env, c, callers));
    EnteredSnoc(s.log, begun);
    AllEnter(env, wrapUser, c.beforeCalls, chain, Saw(s, begun), memo);
    EnteredSnoc(PerformAll(env, wrapUser, c.beforeCalls, chain, Saw(s, begun)).log, BeforeEnd(c));
  }

  lemma {:induction false} AfterEnters(env: Env, wrapUser: bool, c: Call, callers: seq<Frame>, s: Seen,
                                      b: Bracket, memo: Memo)
    requires Grown(PerformAfter(env, wrapUser, c, callers, s, b).memo, memo)
    ensures EnteredFrames(PerformAfter(env, wrapUser, c, callers, s, b).log)
         == EnteredFrames(s.log) + AllReached(c.afterCalls, HookedIn(wrapUser, memo))
    decreases c, 0
  {
    var chain, begun := [c.frame] + callers, AfterRun(c.frame, b.pair, b.request, b.data);
    EnteredSnoc(s.log, begun);
    AllEnter(env, wrapUser, c.afterCalls, chain, Saw(s, begun), memo);
    EnteredSnoc(PerformAll(env, wrapUser, c.afterCalls, chain, Saw(s, begun)).log, AfterEnd(c));
  }

  lemma {:induction false} BodyEnters(env: Env, wrapUser: bool, c: Call, callers: seq<Frame>, s: Seen, memo: Memo)
    requires Grown(PerformBody(env, wrapUser, c, callers, s).memo, memo)
    ensures EnteredFrames(PerformBody(env, wrapUser, c, callers, s).log)
         == EnteredFrames(s.log) + ([c.frame] + AllReached(c.bodyCalls, HookedIn(wrapUser, memo)))
    decreases c, 0
  {
    var chain := [c.frame] + callers;
    EnteredSnoc(s.log, Entered(c.frame));
    AllEnter(env, wrapUser, c.bodyCalls, chain, Saw(s, Entered(c.frame)), memo);
    EnteredSnoc(PerformAll(env, wrapUser, c.bodyCalls, chain, Saw(s, Entered(c.frame))).log, Left(c.frame));
  }

  lemma {:induction false} AllEnter(env: Env, wrapUser: bool, cs: Calls, callers: seq<Frame>, s: Seen, memo: Memo)
    requires Grown(PerformAll(env, wrapUser, cs, callers, s).memo, memo)
    ensures EnteredFrames(PerformAll(env, wrapUser, cs, callers, s).log)
         == EnteredFrames(s.log) + AllReached(cs, HookedIn(wrapUser, memo))
    decreases cs, 0
  {
    match cs
    case NoCalls =>
    case Calls(c, rest) =>
      var s1 := Perform(env, wrapUser, c, callers, s);
      AllGrow(env, wrapUser, rest, callers, s1);
      CallEnters(env, wrapUser, c, callers, s, memo);
      AllEnter(env, wrapUser, rest, callers, s1, memo);
  }
}
