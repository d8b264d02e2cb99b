/** Wrapping user functions and observing them cannot be told apart with the
    plugins the agent has; and exactly when they could be with others. */
module Registrations {
  import opened Brackets
  import opened CallTrees
  import opened Common
  import opened FrameChain
  import opened HookTable

  /** A PHP-level function that bears the wrapper's name, as a method can. */
  predicate UserWrapper(f: Function) {
    f.readable && f.kind.User? && f.name == Some(WRAPPER)
  }

  predicate NoUserWrapper(c: Call)
    decreases c, 1
  {
    !UserWrapper(c.frame.callee) && NoUserWrapperBelow(c)
  }

  predicate NoUserWrapperBelow(c: Call)
    decreases c, 0
  {
    NoUserWrappers(c.beforeCalls) && NoUserWrappers(c.bodyCalls) && NoUserWrappers(c.afterCalls)
  }

  predicate NoUserWrappers(cs: Calls)
    decreases cs, 0
  {
    match cs
    case NoCalls => true
    case Calls(c, rest) => NoUserWrapper(c) && NoUserWrappers(rest)
  }

  /** Wrapping user functions and observing them make the same log and the same
      memo from any call tree without a user function of the wrapper's name. */
  lemma {:induction false} PlainTreesAgree(env: Env, c: Call, callers: seq<Frame>, s: Seen)
    requires NoUserWrapper(c)
    ensures Perform(env, true, c, callers, s) == Perform(env, false, c, callers, s)
    decreases c, 2
  {
    if Passed(true, c.frame.callee) {
      BodiesAgree(env, c, callers, s);
    } else {
      var s1 := LookedUp(env, c, s);
      match s1.memo[KeyOf(c.frame.callee)]
      case None => BodiesAgree(env, c, callers, s1);
      case Some(pair) => HookedAgree(env, c, callers, s1, pair);
    }
  }

  lemma {:induction false} HookedAgree(env: Env, c: Call, callers: seq<Frame>, s: Seen, pair: HookPair)
    requires NoUserWrapperBelow(c)
    ensures PerformHooked(env, true, c, callers, s, pair) == PerformHooked(env, false, c, callers, s, pair)
    decreases c, 1
  {
    var chain := [c.frame] + callers;
    AllAgree(env, c.beforeCalls, chain, Saw(s, BeforeRun(c.frame, pair, RequestOf(env, c, callers))));
    var s1 := PerformBefore(env, false, c, callers, s, pair);
    BodiesAgree(env, c, callers, s1);
    if c.before.Some? {
      var after := AfterRun(c.frame, pair, RequestOf(env, c, callers), c.before.value);
      AllAgree(env, c.afterCalls, chain, Saw(PerformBody(env, false, c, callers, s1), after));
    }
  }

  lemma {:induction false} BodiesAgree(env: Env, c: Call, callers: seq<Frame>, s: Seen)
    requires NoUserWrapperBelow(c)
    ensures PerformBody(env, true, c, callers, s) == PerformBody(env, false, c, callers, s)
    decreases c, 0
  {
    AllAgree(env, c.bodyCalls, [c.frame] + callers, Saw(s, Entered(c.frame)));
  }

  lemma {:induction false} AllAgree(env: Env, cs: Calls, callers: seq<Frame>, s: Seen)
    requires NoUserWrappers(cs)
    ensures PerformAll(env, true, cs, callers, s) == PerformAll(env, false, cs, callers, s)
    decreases cs, 0
  {
    match cs
    case NoCalls =>
    case Calls(c, rest) =>
      PlainTreesAgree(env, c, callers, s);
      AllAgree(env, rest, callers, Perform(env, false, c, callers, s));
  }

  // ---- and exactly when the registrations can be told apart ----

  /** No call that is reached is one of a user function of the wrapper's name that
      the hook table has a hook pair for. */
  predicate Clean(env: Env, c: Call, callers: seq<Frame>, s: Seen)
    decreases c, 2
  {
    if Passed(true, c.frame.callee) then CleanBody(env, c, callers, s)
    else
      var s1 := LookedUp(env, c, s);
      match s1.memo[KeyOf(c.frame.callee)]
      case None => CleanBody(env, c, callers, s1)
      case Some(pair) => !UserWrapper(c.frame.callee) && CleanHooked(env, c, callers, s1, pair)
  }

  predicate CleanHooked(env: Env, c: Call, callers: seq<Frame>, s: Seen, pair: HookPair)
    decreases c, 1
  {
    var s1 := PerformBefore(env, true, c, callers, s, pair);
    && CleanBefore(env, c, callers, s, pair)
    && CleanBody(env, c, callers, s1)
    && (c.before.Some? ==>
          CleanAfter(env, c, callers, PerformBody(env, true, c, callers, s1),
                     Bracket(pair, RequestOf(env, c, callers), c.before.value)))
  }

  predicate CleanBefore(env: Env, c: Call, callers: seq<Frame>, s: Seen, pair: HookPair)
    decreases c, 0
  {
    CleanAll(env, c.beforeCalls, [c.frame] + callers, Saw(s, BeforeRun(c.frame, pair, RequestOf(env, c, callers))))
  }

  predicate CleanBody(env: Env, c: Call, callers: seq<Frame>, s: Seen)
    decreases c, 0
  {
    CleanAll(env, c.bodyCalls, [c.frame] + callers, Saw(s, Entered(c.frame)))
  }

  predicate CleanAfter(env: Env, c: Call, callers: seq<Frame>, s: Seen, b: Bracket)
    decreases c, 0
  {
    CleanAll(env, c.afterCalls, [c.frame] + callers, Saw(s, AfterRun(c.frame, b.pair, b.request, b.data)))
  }

  predicate CleanAll(env: Env, cs: Calls, callers: seq<Frame>, s: Seen)
    decreases cs, 0
  {
    match cs
    case NoCalls => true
    case Calls(c, rest) => Clean(env, c, callers, s) && CleanAll(env, rest, callers, Perform(env, true, c, callers, s))
  }

  /** The same log; and the same memo, but for entries of the wrapper's name,
      which only wrapping makes. */
  ghost predicate Alike(s: Seen, t: Seen) {
    s.log == t.log && forall k: Key :: k.name != WRAPPER ==>
        (k in s.memo <==> k in t.memo) && (k in s.memo ==> s.memo[k] == t.memo[k])
  }

  /** The logs have parted for good. */
  ghost predicate Apart(s: Seen, t: Seen) {
    exists i :: 0 <= i < |s.log| && i < |t.log| && s.log[i] != t.log[i]
  }

  ghost predicate Outcome(clean: bool, s: Seen, t: Seen) {
    if clean then Alike(s, t) else Apart(s, t)
  }

  lemma ApartStays(s: Seen, t: Seen, s': Seen, t': Seen)
    requires Apart(s, t) && s.log <= s'.log && t.log <= t'.log
    ensures Apart(s', t')
  {
    var i :| 0 <= i < |s.log| && i < |t.log| && s.log[i] != t.log[i];
    assert s'.log[i] != t'.log[i];
  }

  lemma {:induction false} PerformOutcome(env: Env, c: Call, callers: seq<Frame>, s: Seen, t: Seen)
    requires Alike(s, t)
    ensures Outcome(Clean(env, c, callers, s), Perform(env, true, c, callers, s), Perform(env, false, c, callers, t))
    decreases c, 2
  {
    var f := c.frame.callee;
    if Passed(true, f) {
      BodyOutcome(env, c, callers, s, t);
    } else {
      var s1 := LookedUp(env, c, s);
      if UserWrapper(f) {
        match s1.memo[KeyOf(f)] {
          case None => BodyOutcome(env, c, callers, s1, t);
          case Some(pair) =>
            HookedGrows(env, true, c, callers, s1, pair);
            BodyGrows(env, false, c, callers, t);
            assert Perform(env, true, c, callers, s).log[|s.log|].BeforeRun?
                   && Perform(env, false, c, callers, t).log[|s.log|].Entered?;
        }
      } else {
        var t1 := LookedUp(env, c, t);
        assert Alike(s1, t1) && s1.memo[KeyOf(f)] == t1.memo[KeyOf(f)];
        match s1.memo[KeyOf(f)]
        case None => BodyOutcome(env, c, callers, s1, t1);
        case Some(pair) => HookedOutcome(env, c, callers, s1, t1, pair);
      }
    }
  }

  lemma {:induction false} HookedOutcome(env: Env, c: Call, callers: seq<Frame>, s: Seen, t: Seen, pair: HookPair)
    requires Alike(s, t)
    ensures Outcome(CleanHooked(env, c, callers, s, pair), PerformHooked(env, true, c, callers, s, pair),
                    PerformHooked(env, false, c, callers, t, pair))
    decreases c, 1
  {
    var s1, t1 := PerformBefore(env, true, c, callers, s, pair), PerformBefore(env, false, c, callers, t, pair);
    var s2, t2 := PerformBody(env, true, c, callers, s1), PerformBody(env, false, c, callers, t1);
    var s3, t3 := PerformHooked(env, true, c, callers, s, pair), PerformHooked(env, false, c, callers, t, pair);
    HookedGrowsOn(env, true, c, callers, s, pair);
    HookedGrowsOn(env, false, c, callers, t, pair);
    BeforeOutcome(env, c, callers, s, t, pair);
    if !CleanBefore(env, c, callers, s, pair) {
      ApartStays(s1, t1, s3, t3);
    } else {
      BodyOutcome(env, c, callers, s1, t1);
      if !CleanBody(env, c, callers, s1) {
        ApartStays(s2, t2, s3, t3);
      } else if c.before.Some? {
        AfterOutcome(env, c, callers, s2, t2, Bracket(pair, RequestOf(env, c, callers), c.before.value));
      }
    }
  }

  lemma SawOutcome(clean: bool, s: Seen, t: Seen, e: Event)
    requires Outcome(clean, s, t)
    ensures Outcome(clean, Saw(s, e), Saw(t, e))
  {
    if !clean { ApartStays(s, t, Saw(s, e), Saw(t, e)); }
  }

  lemma {:induction false} BeforeOutcome(env: Env, c: Call, callers: seq<Frame>, s: Seen, t: Seen, pair: HookPair)
    requires Alike(s, t)
    ensures Outcome(CleanBefore(env, c, callers, s, pair), PerformBefore(env, true, c, callers, s, pair),
                    PerformBefore(env, false, c, callers, t, pair))
    decreases c, 0
  {
    var chain, begun := [c.frame] + callers, BeforeRun(c.frame, pair, RequestOf(env, c, callers));
    AllOutcome(env, c.beforeCalls, chain, Saw(s, begun), Saw(t, begun));
    SawOutcome(CleanBefore(env, c, callers, s, pair), PerformAll(env, true, c.beforeCalls, chain, Saw(s, begun)),
               PerformAll(env, false, c.beforeCalls, chain, Saw(t, begun)), BeforeEnd(c));
  }

  lemma {:induction false} BodyOutcome(env: Env, c: Call, callers: seq<Frame>, s: Seen, t: Seen)
    requires Alike(s, t)
    ensures Outcome(CleanBody(env, c, callers, s), PerformBody(env, true, c, callers, s),
                    PerformBody(env, false, c, callers, t))
    decreases c, 0
  {
    var chain, begun := [c.frame] + callers, Entered(c.frame);
    AllOutcome(env, c.bodyCalls, chain, Saw(s, begun), Saw(t, begun));
    SawOutcome(CleanBody(env, c, callers, s), PerformAll(env, true, c.bodyCalls, chain, Saw(s, begun)),
               PerformAll(env, false, c.bodyCalls, chain, Saw(t, begun)), Left(c.frame));
  }

  lemma {:induction false} AfterOutcome(env: Env, c: Call, callers: seq<Frame>, s: Seen, t: Seen, b: Bracket)
    requires Alike(s, t)
    ensures Outcome(CleanAfter(env, c, callers, s, b), PerformAfter(env, true, c, callers, s, b),
                    PerformAfter(env, false, c, callers, t, b))
    decreases c, 0
  {
    var chain, begun := [c.frame] + callers, AfterRun(c.frame, b.pair, b.request, b.data);
    AllOutcome(env, c.afterCalls, chain, Saw(s, begun), Saw(t, begun));
    SawOutcome(CleanAfter(env, c, callers, s, b), PerformAll(env, true, c.afterCalls, chain, Saw(s, begun)),
               PerformAll(env, false, c.afterCalls, chain, Saw(t, begun)), AfterEnd(c));
  }

  lemma {:induction false} AllOutcome(env: Env, cs: Calls, callers: seq<Frame>, s: Seen, t: Seen)
    requires Alike(s, t)
    ensures Outcome(CleanAll(env, cs, callers, s), PerformAll(env, true, cs, callers, s),
                    PerformAll(env, false, cs, callers, t))
    decreases cs, 0
  {
    match cs
    case NoCalls =>
    case Calls(c, rest) =>
      var s1, t1 := Perform(env, true, c, callers, s), Perform(env, false, c, callers, t);
      PerformOutcome(env, c, callers, s, t);
      if Clean(env, c, callers, s) {
        AllOutcome(env, rest, callers, s1, t1);
      } else {
        AllGrow(env, true, rest, callers, s1);
        AllGrow(env, false, rest, callers, t1);
        ApartStays(s1, t1, PerformAll(env, true, cs, callers, s), PerformAll(env, false, cs, callers, t));
      }
  }

  /** Wrapping and observing user functions give the same log of any call tree
      exactly when no user function of the wrapper's name is reached for which
      there is a hook pair; a tree without such functions is always clean. */
  lemma LogsAgreeExactly(env: Env, c: Call, callers: seq<Frame>, s: Seen)
    ensures Perform(env, true, c, callers, s).log == Perform(env, false, c, callers, s).log
            <==> Clean(env, c, callers, s)
    ensures NoUserWrapper(c) ==> Clean(env, c, callers, s)
  {
    PerformOutcome(env, c, callers, s, s);
    if NoUserWrapper(c) {
      PlainTreesAgree(env, c, callers, s);
    }
  }

  /** It takes a plugin that hooks whatever it is asked for, and one call. */
  lemma CatchAllTellsApart(pair: HookPair, address: nat)
    ensures var env := Env([Plugin(None, None, Some(""), _ => Some(pair))], _ => map[], false);
            var wrapper := Function(User, Some(WRAPPER), None, true);
            var c := Call(Frame(address, wrapper, NotAnObject), NoCalls, None, NoCalls, NoCalls, true);
            Perform(env, true, c, [], Seen(map[], [])).log != Perform(env, false, c, [], Seen(map[], [])).log
  {
    var env := Env([Plugin(None, None, Some(""), _ => Some(pair))], _ => map[], false);
    var wrapper := Function(User, Some(WRAPPER), None, true);
    var c := Call(Frame(address, wrapper, NotAnObject), NoCalls, None, NoCalls, NoCalls, true);
    LogsAgreeExactly(env, c, [], Seen(map[], []));
    assert HasPrefix(env.plugins[0], WRAPPER);
    assert Search(env.plugins, map[], KeyOf(wrapper)) == Some(pair);
  }

  // ---- the agent's own plugins ----

  /** No plugin has a hook for the wrapper's name, in whatever class; each of the
      agent's has hooks for a fixed set of other names. */
  ghost predicate WrapperUnhooked(plugins: seq<Plugin>) {
    forall i, scope :: 0 <= i < |plugins| ==> plugins[i].hook(Key(scope, WRAPPER)) == None
  }

  /** Nor has the memo. */
  ghost predicate WrapperUnhookedIn(memo: Memo) {
    forall k :: k in memo && k.name == WRAPPER ==> memo[k] == None
  }

  lemma LookupStaysUnhooked(env: Env, c: Call, s: Seen)
    requires WrapperUnhooked(env.plugins) && WrapperUnhookedIn(s.memo) && c.frame.callee.name.Some?
    ensures WrapperUnhookedIn(LookedUp(env, c, s).memo)
  {
    var key := KeyOf(c.frame.callee);
    if key.name == WRAPPER {
      assert key == Key(key.scope, WRAPPER);
    }
  }

  lemma {:induction false} AlwaysClean(env: Env, c: Call, callers: seq<Frame>, s: Seen)
    requires WrapperUnhooked(env.plugins) && WrapperUnhookedIn(s.memo)
    ensures Clean(env, c, callers, s) && WrapperUnhookedIn(Perform(env, true, c, callers, s).memo)
    decreases c, 2
  {
    if Passed(true, c.frame.callee) {
      BodyAlwaysClean(env, c, callers, s);
    } else {
      LookupStaysUnhooked(env, c, s);
      var s1 := LookedUp(env, c, s);
      match s1.memo[KeyOf(c.frame.callee)]
      case None => BodyAlwaysClean(env, c, callers, s1);
      case Some(pair) => HookedAlwaysClean(env, c, callers, s1, pair);
    }
  }

  lemma {:induction false} HookedAlwaysClean(env: Env, c: Call, callers: seq<Frame>, s: Seen, pair: HookPair)
    requires WrapperUnhooked(env.plugins) && WrapperUnhookedIn(s.memo)
    ensures CleanHooked(env, c, callers, s, pair)
            && WrapperUnhookedIn(PerformHooked(env, true, c, callers, s, pair).memo)
    decreases c, 1
  {
    var chain, request := [c.frame] + callers, RequestOf(env, c, callers);
    AllAlwaysClean(env, c.beforeCalls, chain, Saw(s, BeforeRun(c.frame, pair, request)));
    var s1 := PerformBefore(env, true, c, callers, s, pair);
    BodyAlwaysClean(env, c, callers, s1);
    if c.before.Some? {
      var s2 := PerformBody(env, true, c, callers, s1);
      AllAlwaysClean(env, c.afterCalls, chain, Saw(s2, AfterRun(c.frame, pair, request, c.before.value)));
    }
  }

  lemma {:induction false} BodyAlwaysClean(env: Env, c: Call, callers: seq<Frame>, s: Seen)
    requires WrapperUnhooked(env.plugins) && WrapperUnhookedIn(s.memo)
    ensures CleanBody(env, c, callers, s) && WrapperUnhookedIn(PerformBody(env, true, c, callers, s).memo)
    decreases c, 0
  {
    AllAlwaysClean(env, c.bodyCalls, [c.frame] + callers, Saw(s, Entered(c.frame)));
  }

  lemma {:induction false} AllAlwaysClean(env: Env, cs: Calls, callers: seq<Frame>, s: Seen)
    requires WrapperUnhooked(env.plugins) && WrapperUnhookedIn(s.memo)
    ensures CleanAll(env, cs, callers, s) && WrapperUnhookedIn(PerformAll(env, true, cs, callers, s).memo)
    decreases cs, 0
  {
    match cs
    case NoCalls =>
    case Calls(c, rest) =>
      AlwaysClean(env, c, callers, s);
      AllAlwaysClean(env, rest, callers, Perform(env, true, c, callers, s));
  }

  /** With such plugins every call tree, whatever functions are in it and whichever
      hooks fail, leaves the same log under all registrations; and the same memo,
      but for entries of the wrapper's name, which say that it has no hook. */
  lemma RegistrationsAgree(env: Env, c: Call, callers: seq<Frame>, s: Seen)
    requires WrapperUnhooked(env.plugins) && WrapperUnhookedIn(s.memo)
    ensures Perform(env, true, c, callers, s).log == Perform(env, false, c, callers, s).log
    ensures Alike(Perform(env, true, c, callers, s), Perform(env, false, c, callers, s))
    ensures WrapperUnhookedIn(Perform(env, true, c, callers, s).memo)
  {
    AlwaysClean(env, c, callers, s);
    PerformOutcome(env, c, callers, s, s);
  }
}
