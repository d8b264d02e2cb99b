/** Any mix of observed and wrapped functions with any number of PHP stacks
    interleaved, as swoole's coroutines are. What the before hook of an observed
    function makes is in the one RESULT_MAP, keyed by frame addresses that are
    distinct among live frames and used again afterwards; for a wrapped function
    it is on the native stack. */
module Coroutines {
  import opened Brackets
  import opened Common
  import opened FrameChain
  import opened HookTable

  datatype Stage = Before | Body | After

  /** What the agent's own native frame around a wrapped call holds: the pair and
      the request once they are chosen, and what the before hook made. */
  datatype Native = Nothing | Chosen(pair: HookPair, request: Option<int>) | Made(bracket: Bracket)

  /** A live frame is in its before hook, in its original or in its after hook. */
  datatype Live = Live(frame: Frame, stage: Stage, native: Native)

  /** Hooks are answered from the memo, so always alike for one function. The
      registration decides which functions are observed; the others are wrapped. */
  datatype Env = Env(select: Function -> Option<HookPair>, observed: Function -> bool, isSwoole: bool)

  datatype State = State(stacks: map<nat, seq<Live>>, results: map<nat, Data>, logs: map<nat, seq<Event>>)

  function StackOf(s: State, co: nat): seq<Live> {
    if co in s.stacks then s.stacks[co] else []
  }

  function LogOf(s: State, co: nat): seq<Event> {
    if co in s.logs then s.logs[co] else []
  }

  const INITIAL := State(map[], map[], map[])

  /** The chain of calling frames, innermost first. */
  function ChainOf(stack: seq<Live>): seq<Frame> {
    if stack == [] then [] else [Last(stack).frame] + ChainOf(Init(stack))
  }

  function RequestOf(env: Env, stack: seq<Live>): Option<int> {
    RequestIdOf(env.isSwoole, ChainOf(stack))
  }

  datatype Action =
    | Call(frame: Frame)
    | BeforeEnds(result: Option<Data>)
    | Return
    | AfterEnds(ok: bool)

  /** One coroutine takes one step. */
  datatype Move = Move(co: nat, action: Action)

  ghost predicate IsLiveAddress(s: State, address: nat) {
    exists co, i :: 0 <= i < |StackOf(s, co)| && StackOf(s, co)[i].frame.address == address
  }

  ghost predicate Enabled(s: State, m: Move) {
    var stack := StackOf(s, m.co);
    match m.action
    case Call(frame) => !IsLiveAddress(s, frame.address)
    case BeforeEnds(_) => stack != [] && Last(stack).stage.Before?
    case Return => stack != [] && Last(stack).stage.Body?
    case AfterEnds(_) => stack != [] && Last(stack).stage.After?
  }

  function Update(s: State, co: nat, stack: seq<Live>, results: map<nat, Data>, events: seq<Event>): State {
    State(s.stacks[co := stack], results, s.logs[co := LogOf(s, co) + events])
  }

  /** The frame and its stage when it has been called. */
  function Called(env: Env, stack: seq<Live>, frame: Frame): Live {
    match env.select(frame.callee)
    case None => Live(frame, Body, Nothing)
    case Some(pair) =>
      var request := RequestOf(env, stack + [Live(frame, Before, Nothing)]);
      Live(frame, Before, if env.observed(frame.callee) then Nothing else Chosen(pair, request))
  }

  /** What the engine and the callbacks do. `observer_begin` stores what before
      made; `observer_end` takes whatever the map has at the frame's address, and
      looks the pair and the request up again. A wrapped call has kept them. */
  ghost function Next(env: Env, s: State, m: Move): State
    requires Enabled(s, m)
  {
    var stack := StackOf(s, m.co);
    match m.action
    case Call(frame) =>
      var chain := stack + [Called(env, stack, frame)];
      (match env.select(frame.callee)
       case None => Update(s, m.co, chain, s.results, [Entered(frame)])
       case Some(pair) => Update(s, m.co, chain, s.results, [BeforeRun(frame, pair, RequestOf(env, chain))]))
    case BeforeEnds(result) =>
      var Live(frame, _, native) := Last(stack);
      (match result
       case None =>
         Update(s, m.co, Init(stack) + [Live(frame, Body, Nothing)], s.results, [BeforeFailed(frame), Entered(frame)])
       case Some(data) =>
         var events := [BeforeDone(frame, data), Entered(frame)];
         if native.Chosen? then
           var made := Made(Bracket(native.pair, native.request, data));
           Update(s, m.co, Init(stack) + [Live(frame, Body, made)], s.results, events)
         else Update(s, m.co, Init(stack) + [Live(frame, Body, Nothing)], s.results[frame.address := data], events))
    case Return =>
      var Live(frame, _, native) := Last(stack);
      var pair := env.select(frame.callee);
      var after := Init(stack) + [Live(frame, After, Nothing)];
      if pair.Some? && env.observed(frame.callee) && frame.address in s.results then
        Update(s, m.co, after, s.results - {frame.address},
               [Left(frame), AfterRun(frame, pair.value, RequestOf(env, stack), s.results[frame.address])])
      else if native.Made? then
        var b := native.bracket;
        Update(s, m.co, after, s.results, [Left(frame), AfterRun(frame, b.pair, b.request, b.data)])
      else Update(s, m.co, Init(stack), s.results, [Left(frame)])
    case AfterEnds(ok) =>
      var frame := Last(stack).frame;
      Update(s, m.co, Init(stack), s.results, [if ok then AfterDone(frame) else AfterFailed(frame)])
  }

  ghost predicate IsRun(env: Env, moves: seq<Move>)
    decreases |moves|, 0
  {
    moves == [] || (IsRun(env, Init(moves)) && Enabled(Final(env, Init(moves)), Last(moves)))
  }

  ghost function Final(env: Env, moves: seq<Move>): State
    requires IsRun(env, moves)
    decreases |moves|, 1
  {
    if moves == [] then INITIAL else Next(env, Final(env, Init(moves)), Last(moves))
  }

  // ---- the invariant ----

  /** The i-th frame of a stack is where the rules of the log say it is; and what it
      owes an after hook is in the map at its address, if the function is
      observed, and otherwise on the native stack. */
  ghost predicate Agrees(env: Env, stack: seq<Live>, opens: seq<Open>, results: map<nat, Data>, i: nat)
    requires i < |stack| == |opens|
  {
    var Live(frame, stage, native) := stack[i];
    var hook, observed := env.select(frame.callee), env.observed(frame.callee);
    var request := RequestOf(env, stack[..i + 1]);
    && opens[i].frame == frame
    && match stage
       case Before =>
         && hook.Some? && opens[i].phase == InBefore(hook.value, request)
         && frame.address !in results && native == if observed then Nothing else Chosen(hook.value, request)
       case Body =>
         && opens[i].phase.InBody?
         && (match opens[i].phase.owed
             case None => frame.address !in results && native == Nothing
             case Some(b) =>
               && hook == Some(b.pair) && b.request == request
               && (if observed then native == Nothing && frame.address in results && results[frame.address] == b.data
                   else native == Made(b) && frame.address !in results))
       case After => opens[i].phase == InAfter && frame.address !in results
  }

  ghost predicate Coherent(env: Env, s: State, co: nat) {
    var opens := OpenAfter(LogOf(s, co));
    && opens.Some?
    && |opens.value| == |StackOf(s, co)|
    && forall i :: 0 <= i < |StackOf(s, co)| ==> Agrees(env, StackOf(s, co), opens.value, s.results, i)
  }

  ghost predicate Distinct(s: State) {
    forall co, i, co', i' :: 0 <= i < |StackOf(s, co)| && 0 <= i' < |StackOf(s, co')|
                             && StackOf(s, co)[i].frame.address == StackOf(s, co')[i'].frame.address
                         ==> co == co' && i == i'
  }

  ghost predicate Inv(env: Env, s: State) {
    && Distinct(s)
    && (forall a :: a in s.results ==> IsLiveAddress(s, a))
    && forall co :: Coherent(env, s, co)
  }

  /** Other stacks do not notice a change of the map at an address of this one. */
  lemma OthersStayCoherent(env: Env, s: State, t: State, co: nat, other: nat)
    requires Inv(env, s) && other != co
    requires StackOf(t, other) == StackOf(s, other) && LogOf(t, other) == LogOf(s, other)
    requires forall i :: 0 <= i < |StackOf(s, other)| ==>
               var a := StackOf(s, other)[i].frame.address;
               (a in s.results <==> a in t.results) && (a in s.results ==> s.results[a] == t.results[a])
    ensures Coherent(env, t, other)
  {
    assert Coherent(env, s, other);
    var stack := StackOf(s, other);
    var opens := OpenAfter(LogOf(s, other)).value;
    forall i | 0 <= i < |stack|
      ensures Agrees(env, stack, opens, t.results, i)
    {
      assert Agrees(env, stack, opens, s.results, i);
    }
  }

  /** Lower frames of the stack that moves do not notice either. */
  lemma LowerStay(env: Env, stack: seq<Live>, opens: seq<Open>, results: map<nat, Data>,
                  stack': seq<Live>, opens': seq<Open>, results': map<nat, Data>, n: nat)
    requires n <= |stack| == |opens| && n <= |stack'| == |opens'|
    requires stack[..n] == stack'[..n] && opens[..n] == opens'[..n]
    requires forall i :: 0 <= i < n ==> Agrees(env, stack, opens, results, i)
    requires forall i :: 0 <= i < n ==>
               var a := stack[i].frame.address;
               (a in results <==> a in results') && (a in results ==> results[a] == results'[a])
    ensures forall i :: 0 <= i < n ==> Agrees(env, stack', opens', results', i)
  {
    forall i | 0 <= i < n
      ensures Agrees(env, stack', opens', results', i)
    {
      assert Agrees(env, stack, opens, results, i);
      assert stack'[i] == stack'[..n][i] == stack[i] && opens'[i] == opens'[..n][i] == opens[i];
      assert stack'[..i + 1] == stack'[..n][..i + 1] == stack[..i + 1];
    }
  }

  /** Results may change only at the address of the moving stack's top frame. */
  ghost predicate OnlyAt(results: map<nat, Data>, results': map<nat, Data>, address: nat) {
    forall a :: a != address ==> (a in results <==> a in results') && (a in results ==> results[a] == results'[a])
  }

  /** The moving stack keeps its lowest n frames; above them it has, before or
      after the move or both, one frame at this address, and none else does. */
  ghost predicate MovesAt(s: State, co: nat, stack': seq<Live>, n: nat, address: nat) {
    var stack := StackOf(s, co);
    && n <= |stack| <= n + 1 && n <= |stack'| <= n + 1 && stack'[..n] == stack[..n]
    && (if n == |stack| then !IsLiveAddress(s, address) else stack[n].frame.address == address)
    && (n < |stack'| ==> stack'[n].frame.address == address)
  }

  /** A move keeps the invariant once the top of the moved stack is right: its
      lower frames are the same and the rest of the world is not touched. */
  lemma InvKept(env: Env, s: State, co: nat, stack': seq<Live>, results': map<nat, Data>, events: seq<Event>,
                opens: seq<Open>, opens': seq<Open>, n: nat, address: nat)
    requires Inv(env, s) && MovesAt(s, co, stack', n, address) && OnlyAt(s.results, results', address)
    requires OpenAfter(LogOf(s, co)) == Some(opens) && OpenAfter(LogOf(s, co) + events) == Some(opens')
    requires |opens| == |StackOf(s, co)| && |opens'| == |stack'| && opens'[..n] == opens[..n]
    requires if n < |stack'| then Agrees(env, stack', opens', results', n) else address !in results'
    ensures Inv(env, Update(s, co, stack', results', events))
  {
    var t := Update(s, co, stack', results', events);
    DistinctKept(s, t, co, n, address);
    ResultsStayLive(env, s, t, co, n, address);
    forall c
      ensures Coherent(env, t, c)
    {
      if c == co {
        MovedIsCoherent(env, s, co, stack', results', opens, opens', n, address);
      } else {
        OthersAreElsewhere(s, co, stack', n, address);
        OthersStayCoherent(env, s, t, co, c);
      }
    }
  }

  lemma MovedIsCoherent(env: Env, s: State, co: nat, stack': seq<Live>, results': map<nat, Data>,
                        opens: seq<Open>, opens': seq<Open>, n: nat, address: nat)
    requires Inv(env, s) && MovesAt(s, co, stack', n, address) && OnlyAt(s.results, results', address)
    requires OpenAfter(LogOf(s, co)) == Some(opens)
    requires |opens| == |StackOf(s, co)| && |opens'| == |stack'| && opens'[..n] == opens[..n]
    requires n < |stack'| ==> Agrees(env, stack', opens', results', n)
    ensures forall i :: 0 <= i < |stack'| ==> Agrees(env, stack', opens', results', i)
  {
    assert Coherent(env, s, co);
    OthersAreElsewhere(s, co, stack', n, address);
    LowerStay(env, StackOf(s, co), opens, s.results, stack', opens', results', n);
  }

  lemma OthersAreElsewhere(s: State, co: nat, stack': seq<Live>, n: nat, address: nat)
    requires Distinct(s) && MovesAt(s, co, stack', n, address)
    ensures forall c, i :: 0 <= i < |StackOf(s, c)| && (c != co || i < n) ==> StackOf(s, c)[i].frame.address != address
  {
    var stack := StackOf(s, co);
    forall c, i | 0 <= i < |StackOf(s, c)| && (c != co || i < n)
      ensures StackOf(s, c)[i].frame.address != address
    {
      if n == |stack| {
        assert !IsLiveAddress(s, address);
      } else {
        assert stack[n].frame.address == address;
      }
    }
  }

  lemma ResultsStayLive(env: Env, s: State, t: State, co: nat, n: nat, address: nat)
    requires Inv(env, s) && MovesAt(s, co, StackOf(t, co), n, address) && OnlyAt(s.results, t.results, address)
    requires forall other :: other != co ==> StackOf(t, other) == StackOf(s, other)
    requires n < |StackOf(t, co)| || address !in t.results
    ensures forall a :: a in t.results ==> IsLiveAddress(t, a)
  {
    forall a | a in t.results
      ensures IsLiveAddress(t, a)
    {
      if a == address {
        assert StackOf(t, co)[n].frame.address == a;
      } else {
        assert a in s.results;
        OtherStaysLive(s, t, co, n, address, a);
      }
    }
  }

  lemma OtherStaysLive(s: State, t: State, co: nat, n: nat, address: nat, a: nat)
    requires MovesAt(s, co, StackOf(t, co), n, address) && a != address && IsLiveAddress(s, a)
    requires forall other :: other != co ==> StackOf(t, other) == StackOf(s, other)
    ensures IsLiveAddress(t, a)
  {
    var c, i :| 0 <= i < |StackOf(s, c)| && StackOf(s, c)[i].frame.address == a;
    if c == co { assert StackOf(t, co)[..n][i] == StackOf(s, co)[..n][i]; }
    assert StackOf(t, c)[i].frame.address == a;
  }

  lemma DistinctKept(s: State, t: State, co: nat, n: nat, address: nat)
    requires Distinct(s) && MovesAt(s, co, StackOf(t, co), n, address)
    requires forall other :: other != co ==> StackOf(t, other) == StackOf(s, other)
    ensures Distinct(t)
  {
    OthersAreElsewhere(s, co, StackOf(t, co), n, address);
    forall c, i | 0 <= i < |StackOf(t, c)| && (c != co || i < n)
      ensures i < |StackOf(s, c)| && StackOf(t, c)[i] == StackOf(s, c)[i]
    {
      if c == co { assert StackOf(t, co)[..n][i] == StackOf(s, co)[..n][i]; }
    }
  }

  lemma TwoEvents(log: seq<Event>, e1: Event, e2: Event)
    ensures OpenAfter(log + [e1, e2])
            == (match OpenAfter(log + [e1]) case None => None case Some(stack) => Step(stack, e2))
  {
    assert log + [e1, e2] == (log + [e1]) + [e2];
    OpenAfterSnoc(log + [e1], e2);
  }

  lemma CallKeepsInv(env: Env, s: State, co: nat, frame: Frame)
    requires Inv(env, s) && Enabled(s, Move(co, Call(frame)))
    ensures Inv(env, Next(env, s, Move(co, Call(frame))))
  {
    assert Coherent(env, s, co);
    var opens := OpenAfter(LogOf(s, co)).value;
    StackMayCall(env, s, co, opens);
    if env.select(frame.callee).None? {
      PlainCallKeepsInv(env, s, co, frame, opens);
    } else {
      TopCallKeepsInv(env, s, co, frame, opens, env.select(frame.callee).value);
    }
  }

  lemma TopCallKeepsInv(env: Env, s: State, co: nat, frame: Frame, opens: seq<Open>, pair: HookPair)
    requires Inv(env, s) && !IsLiveAddress(s, frame.address) && env.select(frame.callee) == Some(pair)
    requires OpenAfter(LogOf(s, co)) == Some(opens) && MayCall(opens) && |opens| == |StackOf(s, co)|
    ensures Inv(env, Next(env, s, Move(co, Call(frame))))
  {
    var stack := StackOf(s, co);
    var top := Called(env, stack, frame);
    ChainIgnoresStages(stack + [Live(frame, Before, Nothing)], stack + [top]);
    HookedCallKeepsInv(env, s, co, top, opens, pair, RequestOf(env, stack + [top]));
  }

  /** A frame that calls is in a hook or in its original. */
  lemma StackMayCall(env: Env, s: State, co: nat, opens: seq<Open>)
    requires Coherent(env, s, co) && OpenAfter(LogOf(s, co)) == Some(opens)
    ensures MayCall(opens)
  {
    if opens != [] {
      assert Agrees(env, StackOf(s, co), opens, s.results, |opens| - 1);
    }
  }

  lemma PlainCallKeepsInv(env: Env, s: State, co: nat, frame: Frame, opens: seq<Open>)
    requires Inv(env, s) && !IsLiveAddress(s, frame.address) && env.select(frame.callee).None?
    requires OpenAfter(LogOf(s, co)) == Some(opens) && MayCall(opens) && |opens| == |StackOf(s, co)|
    ensures Inv(env, Update(s, co, StackOf(s, co) + [Live(frame, Body, Nothing)], s.results, [Entered(frame)]))
  {
    var stack := StackOf(s, co);
    OpenAfterSnoc(LogOf(s, co), Entered(frame));
    InvKept(env, s, co, stack + [Live(frame, Body, Nothing)], s.results, [Entered(frame)],
            opens, opens + [Open(frame, InBody(None))], |stack|, frame.address);
  }

  lemma HookedCallKeepsInv(env: Env, s: State, co: nat, top: Live, opens: seq<Open>, pair: HookPair,
                           request: Option<int>)
    requires Inv(env, s) && !IsLiveAddress(s, top.frame.address) && env.select(top.frame.callee) == Some(pair)
    requires OpenAfter(LogOf(s, co)) == Some(opens) && MayCall(opens) && |opens| == |StackOf(s, co)|
    requires request == RequestOf(env, StackOf(s, co) + [top]) && top.stage.Before?
    requires top.native == if env.observed(top.frame.callee) then Nothing else Chosen(pair, request)
    ensures Inv(env, Update(s, co, StackOf(s, co) + [top], s.results, [BeforeRun(top.frame, pair, request)]))
  {
    var stack, begun := StackOf(s, co), BeforeRun(top.frame, pair, request);
    OpenAfterSnoc(LogOf(s, co), begun);
    var chain, opens' := stack + [top], opens + [Open(top.frame, InBefore(pair, request))];
    assert chain[..|stack| + 1] == chain;
    assert Agrees(env, chain, opens', s.results, |stack|);
    InvKept(env, s, co, chain, s.results, [begun], opens, opens', |stack|, top.frame.address);
  }

  /** The top of a stack whose before hook has ended. */
  function AfterBefore(env: Env, frame: Frame, owed: Option<Bracket>): Live {
    Live(frame, Body, if owed.Some? && !env.observed(frame.callee) then Made(owed.value) else Nothing)
  }

  function ResultsAfterBefore(env: Env, results: map<nat, Data>, frame: Frame, owed: Option<Bracket>): map<nat, Data> {
    if owed.Some? && env.observed(frame.callee) then results[frame.address := owed.value.data] else results
  }

  lemma BeforeEndsKeepsInv(env: Env, s: State, co: nat, result: Option<Data>)
    requires Inv(env, s) && Enabled(s, Move(co, BeforeEnds(result)))
    ensures Inv(env, Next(env, s, Move(co, BeforeEnds(result))))
  {
    assert Coherent(env, s, co);
    var stack, opens := StackOf(s, co), OpenAfter(LogOf(s, co)).value;
    var n, frame := |stack| - 1, Last(stack).frame;
    assert Agrees(env, stack, opens, s.results, n);
    var pair, request := env.select(frame.callee).value, RequestOf(env, stack[..n + 1]);
    var owed := if result.None? then None else Some(Bracket(pair, request, result.value));
    var ended := if result.None? then BeforeFailed(frame) else BeforeDone(frame, result.value);
    assert opens == Init(opens) + [Open(frame, InBefore(pair, request))];
    InBeforeEnds(Init(opens), frame, pair, request);
    BodyBegins(Init(opens), frame, owed);
    OpenAfterSnoc(LogOf(s, co), ended);
    TwoEvents(LogOf(s, co), ended, Entered(frame));
    var stack' := Init(stack) + [AfterBefore(env, frame, owed)];
    ChainIgnoresStages(stack[..n + 1], stack'[..n + 1]);
    InvKept(env, s, co, stack', ResultsAfterBefore(env, s.results, frame, owed), [ended, Entered(frame)],
            opens, Init(opens) + [Open(frame, InBody(owed))], n, frame.address);
  }

  lemma {:induction false} ChainIgnoresStages(stack: seq<Live>, stack': seq<Live>)
    requires |stack| == |stack'| && forall i :: 0 <= i < |stack| ==> stack[i].frame == stack'[i].frame
    ensures ChainOf(stack) == ChainOf(stack')
  {
    if stack != [] {
      ChainIgnoresStages(Init(stack), Init(stack'));
    }
  }

  /** What the innermost frame owes when its original returns; the callback finds
      exactly that in the map, or the wrapper on its stack. */
  lemma OwedOnReturn(env: Env, s: State, co: nat) returns (owed: Option<Bracket>)
    requires Coherent(env, s, co) && Enabled(s, Move(co, Return))
    ensures Last(OpenAfter(LogOf(s, co)).value) == Open(Last(StackOf(s, co)).frame, InBody(owed))
    ensures Next(env, s, Move(co, Return)) == Returned(s, co, owed)
    ensures owed.None? || !env.observed(Last(StackOf(s, co)).frame.callee) ==>
            Last(StackOf(s, co)).frame.address !in s.results
  {
    var stack, opens := StackOf(s, co), OpenAfter(LogOf(s, co)).value;
    assert Agrees(env, stack, opens, s.results, |stack| - 1);
    assert stack[..|stack|] == stack;
    owed := Last(opens).phase.owed;
    var address := Last(stack).frame.address;
    assert address !in s.results ==> s.results - {address} == s.results;
  }

  ghost function Returned(s: State, co: nat, owed: Option<Bracket>): State
    requires StackOf(s, co) != []
  {
    var stack := StackOf(s, co);
    var frame := Last(stack).frame;
    match owed
    case None => Update(s, co, Init(stack), s.results, [Left(frame)])
    case Some(b) => Update(s, co, Init(stack) + [Live(frame, After, Nothing)], s.results - {frame.address},
                           [Left(frame), AfterRun(frame, b.pair, b.request, b.data)])
  }

  lemma ReturnKeepsInv(env: Env, s: State, co: nat)
    requires Inv(env, s) && Enabled(s, Move(co, Return))
    ensures Inv(env, Next(env, s, Move(co, Return)))
  {
    assert Coherent(env, s, co);
    var owed := OwedOnReturn(env, s, co);
    ReturnedKeepsInv(env, s, co, owed);
  }

  lemma ReturnedKeepsInv(env: Env, s: State, co: nat, owed: Option<Bracket>)
    requires Inv(env, s) && Coherent(env, s, co) && StackOf(s, co) != []
    requires Last(OpenAfter(LogOf(s, co)).value) == Open(Last(StackOf(s, co)).frame, InBody(owed))
    requires owed.None? ==> Last(StackOf(s, co)).frame.address !in s.results
    ensures Inv(env, Returned(s, co, owed))
  {
    var stack, opens := StackOf(s, co), OpenAfter(LogOf(s, co)).value;
    var n, frame := |stack| - 1, Last(stack).frame;
    assert opens == Init(opens) + [Open(frame, InBody(owed))];
    BodyEnds(Init(opens), frame, owed);
    OpenAfterSnoc(LogOf(s, co), Left(frame));
    match owed {
      case None =>
        InvKept(env, s, co, Init(stack), s.results, [Left(frame)], opens, Init(opens), n, frame.address);
      case Some(b) =>
        var after := AfterRun(frame, b.pair, b.request, b.data);
        TwoEvents(LogOf(s, co), Left(frame), after);
        AfterBegins(Init(opens), frame, b);
        InvKept(env, s, co, Init(stack) + [Live(frame, After, Nothing)], s.results - {frame.address},
                [Left(frame), after],
                opens, Init(opens) + [Open(frame, InAfter)], n, frame.address);
    }
  }

  lemma AfterEndsKeepsInv(env: Env, s: State, co: nat, ok: bool)
    requires Inv(env, s) && Enabled(s, Move(co, AfterEnds(ok)))
    ensures Inv(env, Next(env, s, Move(co, AfterEnds(ok))))
  {
    assert Coherent(env, s, co);
    var stack, opens := StackOf(s, co), OpenAfter(LogOf(s, co)).value;
    var n, frame := |stack| - 1, Last(stack).frame;
    assert Agrees(env, stack, opens, s.results, n);
    var ended := if ok then AfterDone(frame) else AfterFailed(frame);
    OpenAfterSnoc(LogOf(s, co), ended);
    InvKept(env, s, co, Init(stack), s.results, [ended], opens, Init(opens), n, frame.address);
  }

  lemma {:induction false} RunsAreInvariant(env: Env, moves: seq<Move>)
    requires IsRun(env, moves)
    ensures Inv(env, Final(env, moves))
  {
    if moves == [] {
      forall co ensures Coherent(env, INITIAL, co) {}
    } else {
      RunsAreInvariant(env, Init(moves));
      var s, m := Final(env, Init(moves)), Last(moves);
      match m.action
      case Call(frame) => CallKeepsInv(env, s, m.co, frame);
      case BeforeEnds(result) => BeforeEndsKeepsInv(env, s, m.co, result);
      case Return => ReturnKeepsInv(env, s, m.co);
      case AfterEnds(ok) => AfterEndsKeepsInv(env, s, m.co, ok);
    }
  }

  /** The address belongs to an observed frame whose before hook made `data` and
      whose after hook has not begun. */
  ghost predicate Pending(env: Env, s: State, address: nat, data: Data) {
    exists co, i ::
      && 0 <= i < |StackOf(s, co)| && StackOf(s, co)[i].frame.address == address
      && env.observed(StackOf(s, co)[i].frame.callee) && PendingAt(s, co, i, data)
  }

  ghost predicate PendingAt(s: State, co: nat, i: nat, data: Data) {
    var opens := OpenAfter(LogOf(s, co));
    opens.Some? && i < |opens.value| && opens.value[i].phase.InBody?
    && opens.value[i].phase.owed.Some? && opens.value[i].phase.owed.value.data == data
  }

  /** In every interleaving: each stack keeps the bracket rules, so every after
      hook gets the pair, the request and the data of its own before hook; and
      RESULT_MAP holds exactly what live observed frames are owed, at their
      addresses, and nothing of wrapped ones. */
  lemma {:induction false} EveryInterleavingKeepsTheRules(env: Env, moves: seq<Move>)
    requires IsRun(env, moves)
    ensures forall co :: OpenAfter(LogOf(Final(env, moves), co)).Some?
    ensures var s := Final(env, moves);
            forall a, d :: a in s.results && s.results[a] == d <==> Pending(env, s, a, d)
  {
    RunsAreInvariant(env, moves);
    var s := Final(env, moves);
    forall co ensures OpenAfter(LogOf(s, co)).Some? { assert Coherent(env, s, co); }
    forall a, d | a in s.results && s.results[a] == d
      ensures Pending(env, s, a, d)
    {
      var co, i :| 0 <= i < |StackOf(s, co)| && StackOf(s, co)[i].frame.address == a;
      assert Coherent(env, s, co);
      assert Agrees(env, StackOf(s, co), OpenAfter(LogOf(s, co)).value, s.results, i);
      assert PendingAt(s, co, i, d);
    }
    forall a, d | Pending(env, s, a, d)
      ensures a in s.results && s.results[a] == d
    {
      var co, i :| 0 <= i < |StackOf(s, co)| && StackOf(s, co)[i].frame.address == a
                    && env.observed(StackOf(s, co)[i].frame.callee) && PendingAt(s, co, i, d);
      assert Coherent(env, s, co);
      assert Agrees(env, StackOf(s, co), OpenAfter(LogOf(s, co)).value, s.results, i);
    }
  }

  /** Once every stack is empty the map is empty: nothing leaks. */
  lemma QuietMeansEmpty(env: Env, moves: seq<Move>)
    requires IsRun(env, moves)
    requires forall co :: StackOf(Final(env, moves), co) == []
    ensures Final(env, moves).results == map[]
  {
    RunsAreInvariant(env, moves);
    var s := Final(env, moves);
    assert forall a :: !IsLiveAddress(s, a);
  }

  // ---- every call is hooked as it should be ----

  lemma {:induction false} ChainIsFrames(stack: seq<Live>, opens: seq<Open>)
    requires |stack| == |opens| && forall i :: 0 <= i < |stack| ==> stack[i].frame == opens[i].frame
    ensures ChainOf(stack) == FramesOf(opens)
  {
    if stack != [] {
      ChainIsFrames(Init(stack), Init(opens));
    }
  }

  lemma CallBeginsWell(env: Env, s: State, co: nat, frame: Frame)
    requires Coherent(env, s, co) && Enabled(s, Move(co, Call(frame)))
    requires AllBeginWell(env.select, env.isSwoole, LogOf(s, co))
    ensures AllBeginWell(env.select, env.isSwoole, LogOf(Next(env, s, Move(co, Call(frame))), co))
  {
    var stack, opens := StackOf(s, co), OpenAfter(LogOf(s, co)).value;
    forall i | 0 <= i < |stack|
      ensures stack[i].frame == opens[i].frame
    {
      assert Agrees(env, stack, opens, s.results, i);
    }
    ChainIsFrames(stack, opens);
    var chain := stack + [Called(env, stack, frame)];
    assert Init(chain) == stack && ChainOf(chain) == [frame] + FramesOf(opens);
    RequestIdIsNearest(env.isSwoole, ChainOf(chain));
    var e := match env.select(frame.callee)
      case None => Entered(frame)
      case Some(pair) => BeforeRun(frame, pair, RequestOf(env, chain));
    AllBeginWellSnoc(env.select, env.isSwoole, LogOf(s, co), opens, e);
  }

  lemma BeginsNothing(env: Env, log: seq<Event>, opens: seq<Open>, e: Event)
    requires AllBeginWell(env.select, env.isSwoole, log) && OpenAfter(log) == Some(opens) && !Begins(opens, e)
    ensures AllBeginWell(env.select, env.isSwoole, log + [e])
    ensures OpenAfter(log + [e]) == Step(opens, e)
  {
    AllBeginWellSnoc(env.select, env.isSwoole, log, opens, e);
    OpenAfterSnoc(log, e);
  }

  lemma Two(log: seq<Event>, e1: Event, e2: Event)
    ensures log + [e1] + [e2] == log + [e1, e2]
  {
  }

  /** An event that begins no call, and another one that does not either. */
  lemma NoneBegins(env: Env, log: seq<Event>, opens: seq<Open>, e1: Event, e2: Event)
    requires AllBeginWell(env.select, env.isSwoole, log) && OpenAfter(log) == Some(opens)
    requires Step(opens, e1).Some? && !Begins(opens, e1) && !Begins(Step(opens, e1).value, e2)
    ensures AllBeginWell(env.select, env.isSwoole, log + [e1]) && AllBeginWell(env.select, env.isSwoole, log + [e1, e2])
  {
    BeginsNothing(env, log, opens, e1);
    BeginsNothing(env, log + [e1], Step(opens, e1).value, e2);
    Two(log, e1, e2);
  }

  lemma BeforeEndsBeginsNothing(env: Env, s: State, co: nat, result: Option<Data>)
    requires Coherent(env, s, co) && Enabled(s, Move(co, BeforeEnds(result)))
    requires AllBeginWell(env.select, env.isSwoole, LogOf(s, co))
    ensures AllBeginWell(env.select, env.isSwoole, LogOf(Next(env, s, Move(co, BeforeEnds(result))), co))
  {
    var stack, opens := StackOf(s, co), OpenAfter(LogOf(s, co)).value;
    assert Agrees(env, stack, opens, s.results, |stack| - 1);
    var frame := Last(stack).frame;
    var ended := if result.Some? then BeforeDone(frame, result.value) else BeforeFailed(frame);
    NoneBegins(env, LogOf(s, co), opens, ended, Entered(frame));
  }

  lemma ReturnBeginsNothing(env: Env, s: State, co: nat)
    requires Coherent(env, s, co) && Enabled(s, Move(co, Return))
    requires AllBeginWell(env.select, env.isSwoole, LogOf(s, co))
    ensures AllBeginWell(env.select, env.isSwoole, LogOf(Next(env, s, Move(co, Return)), co))
  {
    var frame, opens := Last(StackOf(s, co)).frame, OpenAfter(LogOf(s, co)).value;
    var owed := OwedOnReturn(env, s, co);
    match owed {
      case None => NoneBegins(env, LogOf(s, co), opens, Left(frame), Left(frame));
      case Some(b) => NoneBegins(env, LogOf(s, co), opens, Left(frame), AfterRun(frame, b.pair, b.request, b.data));
    }
  }

  lemma AfterEndsBeginsNothing(env: Env, s: State, co: nat, ok: bool)
    requires Coherent(env, s, co) && Enabled(s, Move(co, AfterEnds(ok)))
    requires AllBeginWell(env.select, env.isSwoole, LogOf(s, co))
    ensures AllBeginWell(env.select, env.isSwoole, LogOf(Next(env, s, Move(co, AfterEnds(ok))), co))
  {
    var stack, opens := StackOf(s, co), OpenAfter(LogOf(s, co)).value;
    assert Agrees(env, stack, opens, s.results, |stack| - 1);
    var ended := if ok then AfterDone(Last(stack).frame) else AfterFailed(Last(stack).frame);
    NoneBegins(env, LogOf(s, co), opens, ended, ended);
  }

  lemma MoveBeginsWell(env: Env, s: State, m: Move)
    requires Coherent(env, s, m.co) && Enabled(s, m)
    requires AllBeginWell(env.select, env.isSwoole, LogOf(s, m.co))
    ensures AllBeginWell(env.select, env.isSwoole, LogOf(Next(env, s, m), m.co))
  {
    match m.action
    case Call(frame) => CallBeginsWell(env, s, m.co, frame);
    case BeforeEnds(result) => BeforeEndsBeginsNothing(env, s, m.co, result);
    case Return => ReturnBeginsNothing(env, s, m.co);
    case AfterEnds(ok) => AfterEndsBeginsNothing(env, s, m.co, ok);
  }

  lemma OtherLogsStay(env: Env, s: State, m: Move, co: nat)
    requires Enabled(s, m) && m.co != co
    ensures LogOf(Next(env, s, m), co) == LogOf(s, co)
  {
  }

  lemma {:induction false} EveryCallBeginsWell(env: Env, moves: seq<Move>, co: nat)
    requires IsRun(env, moves)
    ensures AllBeginWell(env.select, env.isSwoole, LogOf(Final(env, moves), co))
  {
    if moves != [] {
      EveryCallBeginsWell(env, Init(moves), co);
      RunsAreInvariant(env, Init(moves));
      var s, m := Final(env, Init(moves)), Last(moves);
      assert Coherent(env, s, m.co);
      if m.co == co { MoveBeginsWell(env, s, m); } else { OtherLogsStay(env, s, m, co); }
    }
  }

  /** In every interleaving, on every stack and at every depth of it: an original
      for whose function there is a hook pair is entered after the before hook of
      that pair and no other is; the hook is told the request of the nearest
      wrapper on that stack; and its after hook runs right after the original is
      left, exactly when it has succeeded, with its pair, request and data. */
  lemma EveryCallIsHooked(env: Env, moves: seq<Move>, co: nat, d: nat)
    requires IsRun(env, moves)
    ensures var log := LogOf(Final(env, moves), co);
            var events := AtDepth(log, d);
            && AllBeginWell(env.select, env.isSwoole, log) && CallsAreHooked(env.select, events)
            && AllFollowed(events)
  {
    EveryCallBeginsWell(env, moves, co);
    RunsAreInvariant(env, moves);
    var s := Final(env, moves);
    var log := LogOf(s, co);
    assert Coherent(env, s, co);
    LogIsHooked(env.select, env.isSwoole, log, d);
    if d < |StackOf(s, co)| { NothingOwed(env, s, co, OpenAfter(log).value, d); }
    AfterHooksFollow(env.select, AtDepth(log, d), SlotAt(OpenAfter(log).value, d));
  }

  /** Between steps no call is left with its after hook still to run. */
  lemma NothingOwed(env: Env, s: State, co: nat, opens: seq<Open>, d: nat)
    requires Coherent(env, s, co) && OpenAfter(LogOf(s, co)) == Some(opens) && d < |opens|
    ensures !opens[d].phase.Owes?
  {
    assert Agrees(env, StackOf(s, co), opens, s.results, d);
  }

  /** What each step adds to the log of its stack, whatever the rules say. */
  lemma StepsAreLogged(env: Env, s: State, co: nat, frame: Frame, result: Option<Data>, ok: bool)
    ensures Enabled(s, Move(co, BeforeEnds(result))) && Last(StackOf(s, co)).frame == frame ==>
              var ended := if result.Some? then BeforeDone(frame, result.value) else BeforeFailed(frame);
              LogOf(Next(env, s, Move(co, BeforeEnds(result))), co) == LogOf(s, co) + [ended, Entered(frame)]
    ensures Enabled(s, Move(co, Return)) && Last(StackOf(s, co)).frame == frame ==>
              LogOf(s, co) + [Left(frame)] <= LogOf(Next(env, s, Move(co, Return)), co)
    ensures Enabled(s, Move(co, AfterEnds(ok))) && Last(StackOf(s, co)).frame == frame ==>
              var ended := if ok then AfterDone(frame) else AfterFailed(frame);
              LogOf(Next(env, s, Move(co, AfterEnds(ok))), co) == LogOf(s, co) + [ended]
    ensures Enabled(s, Move(co, Call(frame))) ==>
              var log := LogOf(Next(env, s, Move(co, Call(frame))), co);
              |log| == |LogOf(s, co)| + 1 && LogOf(s, co) < log && Last(log).frame == frame
  {
  }
}
