/** What hooking a function call means, said without any dispatcher: the events of
    one PHP stack, and an automaton that accepts exactly the orders in which they
    are allowed to happen. Both the dispatcher and the interleaved observer
    callbacks are held against it. */
module Brackets {
  import opened Common
  import opened FrameChain
  import opened HookTable

  /** The boxed value a before hook hands to its after hook. */
  type Data = nat

  datatype Event =
    | BeforeRun(frame: Frame, pair: HookPair, request: Option<int>)
    | BeforeDone(frame: Frame, data: Data)
    | BeforeFailed(frame: Frame)
    | Entered(frame: Frame)
    | Left(frame: Frame)
    | AfterRun(frame: Frame, pair: HookPair, request: Option<int>, data: Data)
    | AfterDone(frame: Frame)
    | AfterFailed(frame: Frame)

  /** The hook pair of a call, the request it was told, and what before made. */
  datatype Bracket = Bracket(pair: HookPair, request: Option<int>, data: Data)

  datatype Phase =
    | InBefore(pair: HookPair, request: Option<int>)
    | Ready(owed: Option<Bracket>)
    | InBody(owed: Option<Bracket>)
    | Owes(owes: Bracket)
    | InAfter

  /** A call that has begun and not ended. */
  datatype Open = Open(frame: Frame, phase: Phase)

  /** PHP code of the innermost call is running, so that it may call. */
  predicate MayCall(stack: seq<Open>) {
    stack == [] || Last(stack).phase.InBefore? || Last(stack).phase.InBody? || Last(stack).phase.InAfter?
  }

  /** The innermost call moves on to another phase. */
  function Move(stack: seq<Open>, phase: Phase): seq<Open>
    requires stack != []
  {
    Init(stack) + [Open(Last(stack).frame, phase)]
  }

  predicate TopIs(stack: seq<Open>, frame: Frame) {
    stack != [] && Last(stack).frame == frame
  }

  /** The rules. A hooked call is before, original, after; the original runs
      whatever before did; after runs exactly when before succeeded, and then
      with the pair, the request and the data of its own before. */
  function Step(stack: seq<Open>, e: Event): Option<seq<Open>> {
    match e
    case BeforeRun(f, pair, request) =>
      if MayCall(stack) then Some(stack + [Open(f, InBefore(pair, request))]) else None
    case BeforeDone(f, data) =>
      if TopIs(stack, f) && Last(stack).phase.InBefore?
      then Some(Move(stack, Ready(Some(Bracket(Last(stack).phase.pair, Last(stack).phase.request, data))))) else None
    case BeforeFailed(f) =>
      if TopIs(stack, f) && Last(stack).phase.InBefore? then Some(Move(stack, Ready(None))) else None
    case Entered(f) =>
      if MayCall(stack) then Some(stack + [Open(f, InBody(None))])
      else if TopIs(stack, f) && Last(stack).phase.Ready? then Some(Move(stack, InBody(Last(stack).phase.owed)))
      else None
    case Left(f) =>
      if TopIs(stack, f) && Last(stack).phase.InBody?
      then (match Last(stack).phase.owed case None => Some(Init(stack)) case Some(b) => Some(Move(stack, Owes(b))))
      else None
    case AfterRun(f, pair, request, data) =>
      if TopIs(stack, f) && Last(stack).phase == Owes(Bracket(pair, request, data)) then Some(Move(stack, InAfter))
      else None
    case AfterDone(f) =>
      if TopIs(stack, f) && Last(stack).phase.InAfter? then Some(Init(stack)) else None
    case AfterFailed(f) =>
      if TopIs(stack, f) && Last(stack).phase.InAfter? then Some(Init(stack)) else None
  }

  /** The calls still open after a log, or None when the log breaks a rule. */
  function OpenAfter(log: seq<Event>): Option<seq<Open>> {
    if log == [] then Some([])
    else match OpenAfter(Init(log))
         case None => None
         case Some(stack) => Step(stack, Last(log))
  }

  lemma OpenAfterSnoc(log: seq<Event>, e: Event)
    ensures OpenAfter(log + [e]) == (match OpenAfter(log) case None => None case Some(stack) => Step(stack, e))
  {
    assert Init(log + [e]) == log;
  }

  lemma InBeforeEnds(stack: seq<Open>, f: Frame, pair: HookPair, request: Option<int>)
    ensures Step(stack + [Open(f, InBefore(pair, request))], BeforeFailed(f)) == Some(stack + [Open(f, Ready(None))])
    ensures forall d :: Step(stack + [Open(f, InBefore(pair, request))], BeforeDone(f, d))
                     == Some(stack + [Open(f, Ready(Some(Bracket(pair, request, d))))])
  {
    var open := stack + [Open(f, InBefore(pair, request))];
    assert Init(open) == stack && TopIs(open, f);
  }

  /** A call whose original begins or returns. */
  lemma BodyBegins(stack: seq<Open>, f: Frame, owed: Option<Bracket>)
    ensures MayCall(stack) ==> Step(stack, Entered(f)) == Some(stack + [Open(f, InBody(None))])
    ensures Step(stack + [Open(f, Ready(owed))], Entered(f)) == Some(stack + [Open(f, InBody(owed))])
  {
    assert Init(stack + [Open(f, Ready(owed))]) == stack;
  }

  lemma BodyEnds(stack: seq<Open>, f: Frame, owed: Option<Bracket>)
    ensures Step(stack + [Open(f, InBody(owed))], Left(f))
         == Some(if owed.Some? then stack + [Open(f, Owes(owed.value))] else stack)
  {
    assert Init(stack + [Open(f, InBody(owed))]) == stack;
  }

  lemma AfterBegins(stack: seq<Open>, f: Frame, b: Bracket)
    ensures Step(stack + [Open(f, Owes(b))], AfterRun(f, b.pair, b.request, b.data)) == Some(stack + [Open(f, InAfter)])
  {
    assert Init(stack + [Open(f, Owes(b))]) == stack;
  }

  // ---- the events of one call ----

  predicate Begins(stack: seq<Open>, e: Event) {
    e.BeforeRun? || (e.Entered? && MayCall(stack))
  }

  /** How many calls are open outside the call an event belongs to. */
  function DepthOf(stack: seq<Open>, e: Event): int {
    if Begins(stack, e) then |stack| else |stack| - 1
  }

  /** The events of a log that belong to calls at one depth. */
  function AtDepth(log: seq<Event>, depth: nat): seq<Event> {
    if log == [] then []
    else
      var stack := OpenAfter(Init(log));
      AtDepth(Init(log), depth) + if stack.Some? && DepthOf(stack.value, Last(log)) == depth then [Last(log)] else []
  }

  /** The log has gone on without any event at a depth below n. */
  ghost predicate SameBelow(log: seq<Event>, log': seq<Event>, n: nat) {
    forall d: nat :: d < n ==> AtDepth(log', d) == AtDepth(log, d)
  }

  /** It has gained these events at depth n, and none below. */
  ghost predicate Gains(log: seq<Event>, log': seq<Event>, n: nat, own: seq<Event>) {
    SameBelow(log, log', n) && AtDepth(log', n) == AtDepth(log, n) + own
  }

  lemma GainsOne(log: seq<Event>, e: Event, stack: seq<Open>, n: nat)
    requires OpenAfter(log) == Some(stack) && DepthOf(stack, e) == n
    ensures Gains(log, log + [e], n, [e])
  {
    assert Init(log + [e]) == log;
    forall d: nat | d < n
      ensures AtDepth(log + [e], d) == AtDepth(log, d)
    {
      assert AtDepth(log + [e], d) == AtDepth(log, d) + [];
    }
  }

  lemma GainsNothing(log: seq<Event>, log': seq<Event>, n: nat)
    requires SameBelow(log, log', n + 1)
    ensures Gains(log, log', n, [])
  {
    assert AtDepth(log, n) + [] == AtDepth(log, n);
  }

  lemma GainsBoth(log: seq<Event>, log': seq<Event>, log'': seq<Event>, n: nat, own: seq<Event>, own': seq<Event>)
    requires Gains(log, log', n, own) && Gains(log', log'', n, own')
    ensures Gains(log, log'', n, own + own')
  {
    assert AtDepth(log, n) + own + own' == AtDepth(log, n) + (own + own');
  }

  /** An event, calls inside, and an event: the two events are gained. */
  lemma GainsTwo(log: seq<Event>, e: Event, log': seq<Event>, e': Event, stack: seq<Open>, stack': seq<Open>, n: nat)
    requires OpenAfter(log) == Some(stack) && DepthOf(stack, e) == n
    requires SameBelow(log + [e], log', n + 1)
    requires OpenAfter(log') == Some(stack') && DepthOf(stack', e') == n
    ensures Gains(log, log' + [e'], n, [e, e'])
  {
    GainsOne(log, e, stack, n);
    GainsNothing(log + [e], log', n);
    GainsBoth(log, log + [e], log', n, [e], []);
    GainsOne(log', e', stack', n);
    GainsBoth(log, log', log' + [e'], n, [e] + [], [e']);
    assert [e] + [] + [e'] == [e, e'];
  }

  lemma AtDepthSnoc(log: seq<Event>, e: Event, stack: seq<Open>, d: nat)
    requires OpenAfter(log) == Some(stack)
    ensures AtDepth(log + [e], d) == AtDepth(log, d) + if DepthOf(stack, e) == d then [e] else []
  {
    assert Init(log + [e]) == log;
  }

  // ---- which calls are hooked, and with which request ----

  /** The frames of the open calls, innermost first. */
  function FramesOf(stack: seq<Open>): seq<Frame> {
    if stack == [] then [] else [Last(stack).frame] + FramesOf(Init(stack))
  }

  lemma FramesOfSnoc(stack: seq<Open>, open: Open)
    ensures FramesOf(stack + [open]) == [open.frame] + FramesOf(stack)
  {
    assert Init(stack + [open]) == stack;
  }

  /** A call begins with its before hook exactly when there is a hook pair for it;
      and the hook is told the request of the nearest wrapper on the stack. */
  ghost predicate BeginsWell(select: Function -> Option<HookPair>, isSwoole: bool, stack: seq<Open>, e: Event) {
    Begins(stack, e) ==>
      match e
      case BeforeRun(f, pair, request) =>
        select(f.callee) == Some(pair) && NearestSays(isSwoole, [f] + FramesOf(stack), request)
      case Entered(f) => select(f.callee) == None
      case _ => true
  }

  ghost predicate AllBeginWell(select: Function -> Option<HookPair>, isSwoole: bool, log: seq<Event>) {
    log == [] || (
      && AllBeginWell(select, isSwoole, Init(log))
      && (OpenAfter(Init(log)).Some? ==> BeginsWell(select, isSwoole, OpenAfter(Init(log)).value, Last(log))))
  }

  lemma AllBeginWellSnoc(select: Function -> Option<HookPair>, isSwoole: bool, log: seq<Event>, stack: seq<Open>,
                         e: Event)
    requires AllBeginWell(select, isSwoole, log) && OpenAfter(log) == Some(stack)
    requires BeginsWell(select, isSwoole, stack, e)
    ensures AllBeginWell(select, isSwoole, log + [e])
  {
    assert Init(log + [e]) == log;
  }

  /** An original at one depth is entered right after its before hook, the hook of
      its own pair, has ended; or, if it has no hooks, after nothing of a call
      that is not over. */
  ghost predicate EnteredWell(select: Function -> Option<HookPair>, events: seq<Event>, i: nat)
    requires i < |events| && events[i].Entered?
  {
    var f := events[i].frame;
    match select(f.callee)
    case None => i == 0 || events[i - 1].Left? || events[i - 1].AfterDone? || events[i - 1].AfterFailed?
    case Some(pair) =>
      && i >= 2 && events[i - 2].BeforeRun? && events[i - 2].frame == f && events[i - 2].pair == pair
      && (events[i - 1] == BeforeFailed(f) || (events[i - 1].BeforeDone? && events[i - 1].frame == f))
  }

  /** The before hook of the call that is left here has succeeded. */
  predicate Succeeded(events: seq<Event>, i: nat)
    requires i < |events|
  {
    i >= 2 && events[i - 2].BeforeDone?
  }

  /** An original is left after it was entered; and what follows is its after hook
      exactly when its before hook has succeeded. */
  ghost predicate LeftWell(events: seq<Event>, i: nat)
    requires i < |events| && events[i].Left?
  {
    && i >= 1 && events[i - 1] == Entered(events[i].frame)
    && (i + 1 < |events| ==> (events[i + 1].AfterRun? <==> Succeeded(events, i)))
  }

  /** An after hook has the pair, the request and the data of its call's before hook. */
  ghost predicate AfterRunWell(events: seq<Event>, i: nat)
    requires i < |events| && events[i].AfterRun?
  {
    var e := events[i];
    && i >= 4 && events[i - 1] == Left(e.frame) && events[i - 2] == Entered(e.frame)
    && events[i - 3] == BeforeDone(e.frame, e.data) && events[i - 4] == BeforeRun(e.frame, e.pair, e.request)
  }

  ghost predicate CallsAreHooked(select: Function -> Option<HookPair>, events: seq<Event>) {
    && (forall i :: 0 <= i < |events| && events[i].Entered? ==> EnteredWell(select, events, i))
    && (forall i :: 0 <= i < |events| && events[i].Left? ==> LeftWell(events, i))
    && (forall i :: 0 <= i < |events| && events[i].AfterRun? ==> AfterRunWell(events, i))
  }

  /** The last events at a depth, by the phase of the call that is open there. */
  ghost predicate Tail(select: Function -> Option<HookPair>, events: seq<Event>, open: Option<Open>) {
    var n := |events|;
    match open
    case None =>
      n == 0 || events[n - 1].AfterDone? || events[n - 1].AfterFailed?
          || (events[n - 1].Left? && !Succeeded(events, n - 1))
    case Some(Open(f, phase)) =>
      n > 0 &&
      match phase
      case InBefore(pair, request) => events[n - 1] == BeforeRun(f, pair, request) && select(f.callee) == Some(pair)
      case Ready(owed) => TailBefore(select, events, f, owed)
      case InBody(owed) =>
        && events[n - 1] == Entered(f)
        && (owed.Some? ==> TailBefore(select, events[..n - 1], f, owed))
        && (owed.None? ==> n == 1 || !events[n - 2].BeforeDone?)
      case Owes(b) =>
        && n > 1 && events[n - 1] == Left(f) && events[n - 2] == Entered(f)
        && TailBefore(select, events[..n - 2], f, Some(b))
      case InAfter => events[n - 1].AfterRun? && events[n - 1].frame == f
  }

  ghost predicate TailBefore(select: Function -> Option<HookPair>, events: seq<Event>, f: Frame,
                             owed: Option<Bracket>) {
    var n := |events|;
    && n >= 2 && events[n - 2].BeforeRun? && events[n - 2].frame == f && select(f.callee) == Some(events[n - 2].pair)
    && match owed
       case None => events[n - 1] == BeforeFailed(f)
       case Some(b) => events[n - 1] == BeforeDone(f, b.data) && events[n - 2] == BeforeRun(f, b.pair, b.request)
  }

  function SlotAt(stack: seq<Open>, d: nat): Option<Open> {
    if d < |stack| then Some(stack[d]) else None
  }

  lemma HookedSnoc(select: Function -> Option<HookPair>, events: seq<Event>, e: Event)
    requires CallsAreHooked(select, events)
    requires e.Entered? ==> EnteredWell(select, events + [e], |events|)
    requires e.Left? ==> events != [] && Last(events) == Entered(e.frame)
    requires e.AfterRun? ==> AfterRunWell(events + [e], |events|)
    requires events != [] && Last(events).Left? ==> (e.AfterRun? <==> Succeeded(events, |events| - 1))
    ensures CallsAreHooked(select, events + [e])
  {
    var more := events + [e];
    forall i | 0 <= i < |more| && more[i].Entered?
      ensures EnteredWell(select, more, i)
    {
      assert i < |events| ==> EnteredWell(select, events, i);
    }
    forall i | 0 <= i < |more| && more[i].Left?
      ensures LeftWell(more, i)
    {
      assert i < |events| ==> LeftWell(events, i);
    }
    forall i | 0 <= i < |more| && more[i].AfterRun?
      ensures AfterRunWell(more, i)
    {
      assert i < |events| ==> AfterRunWell(events, i);
    }
  }

  /** An event at its own depth keeps the grammar. */
  lemma OwnStep(select: Function -> Option<HookPair>, isSwoole: bool, events: seq<Event>, stack: seq<Open>, e: Event,
                d: nat)
    requires Step(stack, e).Some? && BeginsWell(select, isSwoole, stack, e) && DepthOf(stack, e) == d
    requires CallsAreHooked(select, events) && Tail(select, events, SlotAt(stack, d))
    ensures CallsAreHooked(select, events + [e]) && Tail(select, events + [e], SlotAt(Step(stack, e).value, d))
  {
    var n := |events|;
    assert (events + [e])[..n] == events;
    assert n > 0 ==> (events + [e])[..n - 1] == events[..n - 1];
    HookedSnoc(select, events, e);
  }

  /** An event at another depth does not matter. */
  lemma OtherStep(stack: seq<Open>, e: Event, d: nat)
    requires Step(stack, e).Some? && DepthOf(stack, e) != d
    ensures SlotAt(Step(stack, e).value, d) == SlotAt(stack, d)
  {
  }

  /** A log that keeps the rules, and whose calls begin well, has all its calls
      hooked as they should be, at every depth. */
  lemma {:induction false} LogIsHooked(select: Function -> Option<HookPair>, isSwoole: bool, log: seq<Event>, d: nat)
    requires OpenAfter(log).Some? && AllBeginWell(select, isSwoole, log)
    ensures CallsAreHooked(select, AtDepth(log, d)) && Tail(select, AtDepth(log, d), SlotAt(OpenAfter(log).value, d))
  {
    if log != [] {
      var stack, e := OpenAfter(Init(log)).value, Last(log);
      LogIsHooked(select, isSwoole, Init(log), d);
      assert log == Init(log) + [e];
      AtDepthSnoc(Init(log), e, stack, d);
      assert AtDepth(Init(log), d) + [] == AtDepth(Init(log), d);
      if DepthOf(stack, e) == d {
        OwnStep(select, isSwoole, AtDepth(Init(log), d), stack, e, d);
      } else {
        OtherStep(stack, e, d);
      }
    }
  }

  /** After every original comes its after hook exactly when its before hook has
      succeeded. */
  ghost predicate AllFollowed(events: seq<Event>) {
    forall i :: 0 <= i < |events| && events[i].Left? ==>
      (i + 1 < |events| && events[i + 1].AfterRun? <==> Succeeded(events, i))
  }

  lemma AfterHooksFollow(select: Function -> Option<HookPair>, events: seq<Event>, open: Option<Open>)
    requires CallsAreHooked(select, events) && Tail(select, events, open)
    requires open.Some? ==> !open.value.phase.Owes?
    ensures AllFollowed(events)
  {
    forall i | 0 <= i < |events| && events[i].Left?
      ensures i + 1 < |events| && events[i + 1].AfterRun? <==> Succeeded(events, i)
    {
      assert LeftWell(events, i);
    }
  }
}
