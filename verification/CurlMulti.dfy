/** CURL_MULTI_INFO_MAP: the handles added to each curl multi, and the exit spans
    opened for them at its first execution and closed at its completion. */
module CurlMulti {
  import opened Common
  import opened UrlOrder

  /** Handle numbers are used again once their object is gone; no two objects are
      the same `nat`. The map of a multi has a copy of each object added to it,
      under its number. */
  type Handles = map<int, nat>

  /** A span with its url tag. The agent keeps it under the number of the handle it
      was opened for; which object that was, it does not keep. Spans are numbered
      in the order of their creation. */
  datatype Span = Span(cid: int, obj: nat, url: string, number: nat)

  /** A span that was finished, with the status of this object. */
  datatype Finish = Finish(span: Span, against: nat)

  datatype MultiInfo = MultiInfo(spans: Option<seq<Span>>, handles: Handles)

  const CURLM_OK := 0

  /** What the calls of one before hook come back with: what `curl_getinfo` says
      of each handle, whether its span can be created and its header injected;
      and the order in which the hash map is walked. */
  datatype Plan = Plan(walk: seq<int>, infos: map<int, Info>, spanFails: set<int>, headerFails: set<int>)

  /** `created` says for which handle each span was opened. A span is finished
      against an object or dropped unfinished. `injected` lists handles whose
      header was injected. */
  datatype State = State(multis: map<int, MultiInfo>, created: seq<Info>, finished: seq<Finish>, dropped: seq<Span>,
                         injected: seq<int>)

  function SpansIn(finished: seq<Finish>): seq<Span> {
    seq(|finished|, i requires 0 <= i < |finished| => finished[i].span)
  }

  predicate NoDuplicates<T(==)>(s: seq<T>) {
    forall i, j :: 0 <= i < j < |s| ==> s[i] != s[j]
  }

  /** The walk visits every handle once; what is said of a handle is said of it. */
  ghost predicate Fits(plan: Plan, handles: set<int>) {
    && NoDuplicates(plan.walk)
    && (forall cid :: cid in plan.walk <==> cid in handles)
    && forall cid :: cid in plan.infos ==> plan.infos[cid].cid == cid
  }

  /** And it is asked of the object the map has under the number. */
  ghost predicate AsksOf(plan: Plan, handles: Handles) {
    && Fits(plan, handles.Keys)
    && forall cid :: cid in plan.infos && cid in handles ==> plan.infos[cid].obj == handles[cid]
  }

  predicate InfosKnown(plan: Plan) {
    forall i :: 0 <= i < |plan.walk| ==> plan.walk[i] in plan.infos
  }

  function Walked(plan: Plan): seq<Info>
    requires InfosKnown(plan)
  {
    seq(|plan.walk|, i requires 0 <= i < |plan.walk| => plan.infos[plan.walk[i]])
  }

  /** The spans opened for the list, in order, and whether all went well. A span
      whose header cannot be injected has been opened all the same. */
  function Opened(list: seq<Info>, plan: Plan, next: nat): (r: (seq<Span>, bool))
    ensures |r.0| <= |list|
  {
    if list == [] then ([], true)
    else if list[0].cid in plan.spanFails then ([], false)
    else if list[0].isHttp && list[0].cid in plan.headerFails then ([SpanFor(list[0], next)], false)
    else
      var (spans, ok) := Opened(list[1..], plan, next + 1);
      ([SpanFor(list[0], next)] + spans, ok)
  }

  /** The outcome of a loop that had opened these spans before. */
  function Joined(spans: seq<Span>, rest: (seq<Span>, bool)): (seq<Span>, bool) {
    (spans + rest.0, rest.1)
  }

  lemma JoinedNone(spans: seq<Span>, rest: (seq<Span>, bool))
    ensures Joined([], rest) == rest
    ensures Joined(spans, ([], rest.1)) == (spans, rest.1)
  {
    assert [] + rest.0 == rest.0 && spans + [] == spans;
  }

  lemma JoinedOnce(spans: seq<Span>, span: Span, rest: (seq<Span>, bool))
    ensures Joined(spans, Joined([span], rest)) == Joined(spans + [span], rest)
  {
    assert spans + ([span] + rest.0) == spans + [span] + rest.0;
  }

  /** What the loops' functions say of a handle whose span and header succeed. */
  lemma OneMoreOpened(list: seq<Info>, plan: Plan, n: nat, next: nat)
    requires n < |list| && list[n].cid !in plan.spanFails && (list[n].isHttp ==> list[n].cid !in plan.headerFails)
    ensures Opened(list[n..], plan, next) == Joined([SpanFor(list[n], next)], Opened(list[n + 1..], plan, next + 1))
  {
    assert list[n..][1..] == list[n + 1..];
  }

  lemma OneMoreHeader(injected: seq<int>, list: seq<Info>, plan: Plan, n: nat)
    requires n < |list| && list[n].cid !in plan.spanFails && (list[n].isHttp ==> list[n].cid !in plan.headerFails)
    ensures injected + HeadersOf(list[n..], plan)
         == (if list[n].isHttp then injected + [list[n].cid] else injected) + HeadersOf(list[n + 1..], plan)
  {
    assert list[n..][1..] == list[n + 1..];
  }

  function SpanFor(info: Info, number: nat): Span {
    Span(info.cid, info.obj, info.url, number)
  }

  /** The handles whose header gets injected on the way. */
  function HeadersOf(list: seq<Info>, plan: Plan): seq<int> {
    if list == [] || list[0].cid in plan.spanFails then []
    else if list[0].isHttp && list[0].cid in plan.headerFails then []
    else (if list[0].isHttp then [list[0].cid] else []) + HeadersOf(list[1..], plan)
  }

  function Cids(spans: seq<Span>): seq<int> {
    seq(|spans|, i requires 0 <= i < |spans| => spans[i].cid)
  }

  datatype Began = Failed | NotExecuting | Executing

  /** The before hook of `curl_multi_exec`. */
  function Begun(s: State, mid: int, plan: Plan): (State, Began) {
    if mid !in s.multis || s.multis[mid].handles == map[] then (s, NotExecuting)
    else if s.multis[mid].spans.Some? then (s, Executing)
    else if !InfosKnown(plan) then (s, Failed)
    else
      var list := SortDescending(Walked(plan));
      var (spans, ok) := Opened(list, plan, |s.created|);
      var t := s.(created := s.created + list[..|spans|], injected := s.injected + HeadersOf(list, plan));
      if ok then (t.(multis := s.multis[mid := s.multis[mid].(spans := Some(spans))]), Executing)
      else (t.(dropped := s.dropped + spans), Failed)
  }

  /** Popping the spans: which are finished, against the object that the map has
      under their number by now, and which are dropped. The first failure drops
      the span at hand and all below it. */
  function Closed(spans: seq<Span>, handles: Handles, finishFails: set<int>): (seq<Finish>, seq<Span>) {
    if spans == [] then ([], [])
    else
      var span := Last(spans);
      if span.cid !in handles then
        var (finished, dropped) := Closed(Init(spans), handles, finishFails);
        (finished, [span] + dropped)
      else if span.cid in finishFails then ([], [span] + Init(spans))
      else
        var (finished, dropped) := Closed(Init(spans), handles - {span.cid}, finishFails);
        ([Finish(span, handles[span.cid])] + finished, dropped)
  }

  /** The call has come to its end: curl says OK, and nothing runs any more. */
  predicate Completes(isExec: bool, code: Option<int>, running: Option<int>) {
    isExec && code == Some(CURLM_OK) && running == Some(0)
  }

  /** The after hook of `curl_multi_exec`. */
  function Ended(s: State, mid: int, isExec: bool, code: Option<int>, running: Option<int>,
                 finishFails: set<int>): State {
    if !Completes(isExec, code, running) || mid !in s.multis then s
    else
      var info := s.multis[mid];
      var t := s.(multis := s.multis - {mid});
      match info.spans
      case None => t
      case Some(spans) =>
        var (finished, dropped) := Closed(spans, info.handles, finishFails);
        t.(finished := s.finished + finished, dropped := s.dropped + dropped)
  }

  function InfoOf(s: State, mid: int): MultiInfo {
    if mid in s.multis then s.multis[mid] else MultiInfo(None, map[])
  }

  function Released(s: State, mid: int): State {
    s.(multis := s.multis - {mid},
       dropped := s.dropped + if InfoOf(s, mid).spans.Some? then InfoOf(s, mid).spans.value else [])
  }

  class CurlMultiHooks {
    var multis: map<int, MultiInfo>
    var created: seq<Info>
    var finished: seq<Finish>
    var dropped: seq<Span>
    var injected: seq<int>

    constructor ()
      ensures View() == State(map[], [], [], [], [])
    {
      multis, created, finished, dropped, injected := map[], [], [], [], [];
    }

    ghost function View(): State
      reads this
    {
      State(multis, created, finished, dropped, injected)
    }

    /** The before hook of `curl_multi_add_handle`. */
    method AddHandle(mid: int, cid: int, obj: nat)
      modifies `multis
      ensures View() == Added(old(View()), mid, cid, obj)
    {
      var info := if mid in multis then multis[mid] else MultiInfo(None, map[]);
      multis := multis[mid := info.(handles := info.handles[cid := obj])];
    }

    /** The before hook of `curl_multi_remove_handle`. */
    method RemoveHandle(mid: int, cid: int)
      modifies `multis
      ensures View() == Removed(old(View()), mid, cid)
    {
      var info := if mid in multis then multis[mid] else MultiInfo(None, map[]);
      multis := multis[mid := info.(handles := info.handles - {cid})];
    }

    /** The before hook of `curl_multi_exec`. */
    method ExecBefore(mid: int, plan: Plan) returns (r: Began)
      modifies this
      ensures (View(), r) == Begun(old(View()), mid, plan)
    {
      if mid !in multis {
        return NotExecuting;
      }
      if multis[mid].handles == map[] {
        return NotExecuting;
      }
      if multis[mid].spans.Some? {
        return Executing;
      }
      var infos := GetInfos(plan);
      if infos.None? {
        return Failed;
      }
      var list := SortDescending(infos.value);
      var spans, ok := OpenSpans(list, plan);
      if !ok {
        dropped := dropped + spans;
        return Failed;
      }
      multis := multis[mid := multis[mid].(spans := Some(spans))];
      return Executing;
    }

    /** Its first loop: the infos of the handles, in the order they are walked. */
    method GetInfos(plan: Plan) returns (r: Option<seq<Info>>)
      ensures r == if InfosKnown(plan) then Some(Walked(plan)) else None
    {
      var list := [];
      var n := 0;
      while n < |plan.walk|
        invariant 0 <= n <= |plan.walk|
        invariant |list| == n && forall i :: 0 <= i < n ==>
                  plan.walk[i] in plan.infos && list[i] == plan.infos[plan.walk[i]]
      {
        if plan.walk[n] !in plan.infos {
          return None;
        }
        list := list + [plan.infos[plan.walk[n]]];
        n := n + 1;
      }
      assert list == Walked(plan);
      return Some(list);
    }

    /** Its second loop: a span for each handle, and its header injected. */
    method OpenSpans(list: seq<Info>, plan: Plan) returns (spans: seq<Span>, ok: bool)
      modifies `created, `injected
      ensures (spans, ok) == Opened(list, plan, |old(created)|)
      ensures created == old(created) + list[..|spans|]
      ensures injected == old(injected) + HeadersOf(list, plan)
    {
      spans := [];
      var n := 0;
      ghost var from := |created|;
      JoinedNone([], Opened(list, plan, from));
      assert list[0..] == list;
      while n < |list|
        invariant 0 <= n <= |list|
        invariant |spans| == n && created == old(created) + list[..n]
        invariant Opened(list, plan, from) == Joined(spans, Opened(list[n..], plan, from + n))
        invariant old(injected) + HeadersOf(list, plan) == injected + HeadersOf(list[n..], plan)
      {
        var info := list[n];
        ghost var was := injected;
        if info.cid in plan.spanFails {
          JoinedNone(spans, ([], false));
          return spans, false;
        }
        var span := SpanFor(info, |created|);
        created := created + [info];
        assert list[..n + 1] == list[..n] + [info];
        if info.isHttp {
          if info.cid in plan.headerFails {
            return spans + [span], false;
          }
          injected := injected + [info.cid];
        }
        OneMoreOpened(list, plan, n, from + n);
        OneMoreHeader(was, list, plan, n);
        JoinedOnce(spans, span, Opened(list[n + 1..], plan, from + n + 1));
        spans := spans + [span];
        n := n + 1;
      }
      assert list[n..] == [] && list[..n] == list;
      JoinedNone(spans, ([], true));
      return spans, true;
    }

    /** The after hook of `curl_multi_exec`, with its pop loop. */
    method ExecAfter(mid: int, isExec: bool, code: Option<int>, running: Option<int>, finishFails: set<int>)
      modifies this
      ensures View() == Ended(old(View()), mid, isExec, code, running, finishFails)
    {
      if !isExec {
        return;
      }
      if code != Some(CURLM_OK) {
        return;
      }
      if running != Some(0) {
        return;
      }
      if mid !in multis {
        return;
      }
      var info := multis[mid];
      multis := multis - {mid};
      if info.spans.None? {
        return;
      }
      var spans, handles := info.spans.value, info.handles;
      while spans != []
        invariant created == old(created) && injected == old(injected) && multis == old(multis) - {mid}
        invariant old(finished) + Closed(info.spans.value, info.handles, finishFails).0
               == finished + Closed(spans, handles, finishFails).0
        invariant old(dropped) + Closed(info.spans.value, info.handles, finishFails).1
               == dropped + Closed(spans, handles, finishFails).1
        decreases |spans|
      {
        var span := spans[|spans| - 1];
        spans := spans[..|spans| - 1];
        if span.cid !in handles {
          dropped := dropped + [span];
          continue;
        }
        if span.cid in finishFails {
          dropped := dropped + ([span] + spans);
          return;
        }
        finished := finished + [Finish(span, handles[span.cid])];
        handles := handles - {span.cid};
      }
    }

    /** The before hook of `curl_multi_close`. */
    method CloseMulti(mid: int)
      modifies this
      ensures View() == Released(old(View()), mid)
    {
      if mid in multis {
        if multis[mid].spans.Some? {
          dropped := dropped + multis[mid].spans.value;
        }
      }
      multis := multis - {mid};
    }
  }

  function Added(s: State, mid: int, cid: int, obj: nat): State {
    s.(multis := s.multis[mid := InfoOf(s, mid).(handles := InfoOf(s, mid).handles[cid := obj])])
  }

  function Removed(s: State, mid: int, cid: int): State {
    s.(multis := s.multis[mid := InfoOf(s, mid).(handles := InfoOf(s, mid).handles - {cid})])
  }

  // ---- runs ----

  datatype Move =
    | Add(mid: int, cid: int, obj: nat)
    | Remove(mid: int, cid: int)
    /** The two hooks around one execution; the after hook runs only if the before
        hook has not failed, and gets what it has returned. */
    | ExecBefore(call: nat, mid: int, plan: Plan)
    | ExecAfter(call: nat, mid: int, isExec: bool, code: Option<int>, running: Option<int>, finishFails: set<int>)
    | Close(mid: int)
    /** The multi object is freed and its id goes to a new one. Nothing tells the
        agent. */
    | Reuse(mid: int)

  function Next(s: State, m: Move): State {
    match m
    case Add(mid, cid, obj) => Added(s, mid, cid, obj)
    case Remove(mid, cid) => Removed(s, mid, cid)
    case ExecBefore(_, mid, plan) => Begun(s, mid, plan).0
    case ExecAfter(_, mid, isExec, code, running, finishFails) => Ended(s, mid, isExec, code, running, finishFails)
    case Close(mid) => Released(s, mid)
    case Reuse(_) => s
  }

  /** The copy of an object in a map keeps it alive, so its number is not given to
      another; and the agent asks the objects of the map. */
  ghost predicate Enabled(s: State, m: Move) {
    match m
    case Add(_, cid, obj) =>
      forall mid :: mid in s.multis && cid in s.multis[mid].handles ==> s.multis[mid].handles[cid] == obj
    case ExecBefore(_, mid, plan) => AsksOf(plan, InfoOf(s, mid).handles)
    case _ => true
  }

  /** What the before hook of an execution under way has returned, for which multi. */
  ghost function ResultOf(moves: seq<Move>, call: nat): Option<(int, Began)> {
    if moves == [] then None
    else
      match Last(moves)
      case ExecBefore(c, mid, plan) =>
        if c == call then Some((mid, Begun(Final(Init(moves)), mid, plan).1)) else ResultOf(Init(moves), call)
      case ExecAfter(c, _, _, _, _, _) => if c == call then None else ResultOf(Init(moves), call)
      case _ => ResultOf(Init(moves), call)
  }

  /** Executions are distinct, and an after hook is given its own before hook's result. */
  ghost predicate Answers(before: seq<Move>, m: Move) {
    match m
    case ExecBefore(call, _, _) => ResultOf(before, call) == None
    case ExecAfter(call, mid, isExec, _, _, _) =>
      ResultOf(before, call) == Some((mid, if isExec then Executing else NotExecuting))
    case _ => true
  }

  ghost predicate IsRun(moves: seq<Move>) {
    moves == [] || (IsRun(Init(moves)) && Enabled(Final(Init(moves)), Last(moves)) && Answers(Init(moves), Last(moves)))
  }

  function Final(moves: seq<Move>): State {
    if moves == [] then State(map[], [], [], [], []) else Next(Final(Init(moves)), Last(moves))
  }

  // ---- where the spans are ----

  function SpansOf(info: MultiInfo): seq<Span> {
    if info.spans.Some? then info.spans.value else []
  }

  ghost function Pick(multis: map<int, MultiInfo>): (r: int)
    requires exists mid :: mid in multis
    ensures r in multis
  {
    var mid :| mid in multis;
    mid
  }

  /** The open spans of all multis together. */
  ghost function PendingIn(multis: map<int, MultiInfo>): multiset<Span>
    decreases |multis.Keys|
  {
    if exists mid :: mid in multis then
      var mid := Pick(multis);
      assert (multis - {mid}).Keys == multis.Keys - {mid};
      PendingIn(multis - {mid}) + multiset(SpansOf(multis[mid]))
    else multiset{}
  }

  /** The sum does not depend on the order it is taken in. */
  lemma {:induction false} PendingSplits(multis: map<int, MultiInfo>, mid: int)
    requires mid in multis
    ensures PendingIn(multis) == PendingIn(multis - {mid}) + multiset(SpansOf(multis[mid]))
    decreases |multis.Keys|
  {
    var other := Pick(multis);
    if other != mid {
      var without, without' := multis - {mid}, multis - {other};
      assert without.Keys == multis.Keys - {mid} && without'.Keys == multis.Keys - {other};
      PendingSplits(without', mid);
      PendingSplits(without, other);
      assert without - {other} == without' - {mid};
    }
  }

  lemma PendingUpdated(multis: map<int, MultiInfo>, mid: int, info: MultiInfo)
    ensures PendingIn(multis[mid := info]) == PendingIn(multis - {mid}) + multiset(SpansOf(info))
  {
    PendingSplits(multis[mid := info], mid);
    assert multis[mid := info] - {mid} == multis - {mid};
  }

  lemma PendingWithout(multis: map<int, MultiInfo>, mid: int)
    ensures PendingIn(multis)
         == PendingIn(multis - {mid}) + multiset(if mid in multis then SpansOf(multis[mid]) else [])
  {
    if mid in multis {
      PendingSplits(multis, mid);
    } else {
      assert multis - {mid} == multis;
    }
  }

  function AllSpans(created: seq<Info>): seq<Span> {
    seq(|created|, i requires 0 <= i < |created| => SpanFor(created[i], i))
  }

  /** Every span ever created is in exactly one place: finished, dropped or open
      in one multi; and nothing else is anywhere. */
  ghost predicate Conserved(s: State) {
    multiset(AllSpans(s.created)) == multiset(SpansIn(s.finished)) + multiset(s.dropped) + PendingIn(s.multis)
  }

  lemma {:induction false} OpenedNumbers(list: seq<Info>, plan: Plan, next: nat)
    ensures var (spans, ok) := Opened(list, plan, next);
            && |spans| <= |list| && (ok ==> |spans| == |list|)
            && forall i :: 0 <= i < |spans| ==> spans[i] == SpanFor(list[i], next + i)
  {
    if list != [] && list[0].cid !in plan.spanFails && !(list[0].isHttp && list[0].cid in plan.headerFails) {
      OpenedNumbers(list[1..], plan, next + 1);
    }
  }

  lemma SpansOfBoth(a: seq<Finish>, b: seq<Finish>)
    ensures SpansIn(a + b) == SpansIn(a) + SpansIn(b)
  {
  }

  lemma {:induction false} ClosedPartitions(spans: seq<Span>, handles: Handles, finishFails: set<int>)
    ensures var (finished, dropped) := Closed(spans, handles, finishFails);
            multiset(SpansIn(finished)) + multiset(dropped) == multiset(spans)
  {
    if spans != [] {
      var span := Last(spans);
      assert spans == Init(spans) + [span];
      ClosedPartitions(Init(spans), handles, finishFails);
      if span.cid in handles && span.cid !in finishFails {
        var remaining := handles - {span.cid};
        ClosedPartitions(Init(spans), remaining, finishFails);
        SpansOfBoth([Finish(span, handles[span.cid])], Closed(Init(spans), remaining, finishFails).0);
        assert SpansIn([Finish(span, handles[span.cid])]) == [span];
      }
    }
  }

  /** A finished span is finished against the object under its number. */
  lemma {:induction false} ClosedAgainst(spans: seq<Span>, handles: Handles, finishFails: set<int>)
    ensures forall f :: f in Closed(spans, handles, finishFails).0 ==>
              f.span in spans && f.span.cid in handles && f.against == handles[f.span.cid]
  {
    if spans != [] {
      var span := Last(spans);
      ClosedAgainst(Init(spans), handles, finishFails);
      if span.cid in handles && span.cid !in finishFails {
        ClosedAgainst(Init(spans), handles - {span.cid}, finishFails);
      }
    }
  }

  /** The spans are numbered on from the created ones. */
  lemma NumbersGoOn(created: seq<Info>, list: seq<Info>, spans: seq<Span>)
    requires |spans| <= |list| && forall i :: 0 <= i < |spans| ==> spans[i] == SpanFor(list[i], |created| + i)
    ensures AllSpans(created + list[..|spans|]) == AllSpans(created) + spans
  {
  }

  lemma BegunConserves(s: State, mid: int, plan: Plan)
    requires Conserved(s)
    ensures Conserved(Begun(s, mid, plan).0)
  {
    if mid in s.multis && s.multis[mid].handles != map[] && s.multis[mid].spans.None? && InfosKnown(plan) {
      var list := SortDescending(Walked(plan));
      var (spans, ok) := Opened(list, plan, |s.created|);
      OpenedNumbers(list, plan, |s.created|);
      NumbersGoOn(s.created, list, spans);
      OpeningConserves(s, mid, s.created + list[..|spans|], spans);
    }
  }

  /** Newly opened spans are all put into the multi, or all dropped. */
  lemma OpeningConserves(s: State, mid: int, created: seq<Info>, spans: seq<Span>)
    requires Conserved(s) && mid in s.multis && s.multis[mid].spans.None?
    requires AllSpans(created) == AllSpans(s.created) + spans
    ensures multiset(AllSpans(created))
         == multiset(SpansIn(s.finished)) + multiset(s.dropped)
             + PendingIn(s.multis[mid := s.multis[mid].(spans := Some(spans))])
    ensures multiset(AllSpans(created))
         == multiset(SpansIn(s.finished)) + multiset(s.dropped + spans) + PendingIn(s.multis)
  {
    PendingUpdated(s.multis, mid, s.multis[mid].(spans := Some(spans)));
    PendingWithout(s.multis, mid);
  }

  lemma {:induction false} SpansAreConserved(moves: seq<Move>)
    requires IsRun(moves)
    ensures Conserved(Final(moves))
  {
    if moves != [] {
      SpansAreConserved(Init(moves));
      NextConserves(Final(Init(moves)), Last(moves));
    }
  }

  lemma NextConserves(s: State, m: Move)
    requires Conserved(s)
    ensures Conserved(Next(s, m))
  {
    match m
    case Add(mid, cid, obj) => HandlesConserve(s, mid, InfoOf(s, mid).handles[cid := obj]);
    case Remove(mid, cid) => HandlesConserve(s, mid, InfoOf(s, mid).handles - {cid});
    case _ => OthersConserve(s, m);
  }

  lemma OthersConserve(s: State, m: Move)
    requires Conserved(s) && !m.Add? && !m.Remove?
    ensures Conserved(Next(s, m))
  {
    match m
    case ExecBefore(_, mid, plan) => BegunConserves(s, mid, plan);
    case ExecAfter(_, mid, isExec, code, running, finishFails) =>
      EndedConserves(s, mid, isExec, code, running, finishFails);
    case Close(mid) => ReleasedConserves(s, mid);
    case Reuse(_) =>
  }

  lemma ReleasedConserves(s: State, mid: int)
    requires Conserved(s)
    ensures Conserved(Released(s, mid))
  {
    var open := SpansOf(InfoOf(s, mid));
    PendingWithout(s.multis, mid);
    assert multiset(s.dropped + open) == multiset(s.dropped) + multiset(open);
  }

  lemma HandlesConserve(s: State, mid: int, handles: Handles)
    requires Conserved(s)
    ensures Conserved(s.(multis := s.multis[mid := InfoOf(s, mid).(handles := handles)]))
  {
    PendingUpdated(s.multis, mid, InfoOf(s, mid).(handles := handles));
    PendingWithout(s.multis, mid);
  }

  /** Closing partitions the open spans into finished and dropped ones. */
  lemma PartConserves(s: State, mid: int, finished: seq<Finish>, dropped: seq<Span>)
    requires Conserved(s)
    requires multiset(SpansIn(finished)) + multiset(dropped) == multiset(SpansOf(InfoOf(s, mid)))
    ensures Conserved(s.(multis := s.multis - {mid}, finished := s.finished + finished, dropped := s.dropped + dropped))
  {
    PendingWithout(s.multis, mid);
    SpansOfBoth(s.finished, finished);
    assert multiset(s.dropped + dropped) == multiset(s.dropped) + multiset(dropped);
  }

  lemma EndedConserves(s: State, mid: int, isExec: bool, code: Option<int>, running: Option<int>, finishFails: set<int>)
    requires Conserved(s)
    ensures Conserved(Ended(s, mid, isExec, code, running, finishFails))
  {
    if Completes(isExec, code, running) && mid in s.multis {
      var info := s.multis[mid];
      match info.spans
      case None =>
        PartConserves(s, mid, [], []);
        assert s.finished + [] == s.finished && s.dropped + [] == s.dropped;
      case Some(spans) =>
        ClosedPartitions(spans, info.handles, finishFails);
        PartConserves(s, mid, Closed(spans, info.handles, finishFails).0, Closed(spans, info.handles, finishFails).1);
    }
  }

  /** It was created, with this number and for this handle, and is not open. */
  ghost predicate HasEnded(s: State, x: Span) {
    x.number < |s.created| && x == SpanFor(s.created[x.number], x.number) && x !in PendingIn(s.multis)
  }

  /** So no span is finished twice or finished and dropped. */
  lemma SpansEndOnce(moves: seq<Move>)
    requires IsRun(moves)
    ensures var s := Final(moves);
            && NoDuplicates(SpansIn(s.finished) + s.dropped)
            && forall x :: x in SpansIn(s.finished) || x in s.dropped ==> HasEnded(s, x)
  {
    SpansAreConserved(moves);
    EndedAreCounted(Final(moves));
    SinglesBack(SpansIn(Final(moves).finished) + Final(moves).dropped);
  }

  /** How often a span occurs among those that have ended. */
  lemma EndedAreCounted(s: State)
    requires Conserved(s)
    ensures forall x :: multiset(SpansIn(s.finished) + s.dropped)[x] <= 1
    ensures forall x :: x in SpansIn(s.finished) || x in s.dropped ==> HasEnded(s, x)
  {
    var all, ended := AllSpans(s.created), SpansIn(s.finished) + s.dropped;
    SinglesOf(all);
    assert multiset(ended) == multiset(SpansIn(s.finished)) + multiset(s.dropped);
    forall x
      ensures multiset(ended)[x] <= 1
    {
      assert multiset(ended)[x] <= multiset(all)[x];
    }
    forall x | x in SpansIn(s.finished) || x in s.dropped
      ensures HasEnded(s, x)
    {
      assert x in ended && multiset(ended)[x] >= 1;
      assert multiset(all)[x] == 1;
      assert x in multiset(all);
    }
  }

  lemma {:induction false} SinglesOf(s: seq<Span>)
    requires NoDuplicates(s)
    ensures forall x :: multiset(s)[x] <= 1
  {
    if s != [] {
      SinglesOf(Init(s));
      assert s == Init(s) + [Last(s)];
      assert Last(s) !in Init(s);
    }
  }

  lemma {:induction false} SinglesBack(s: seq<Span>)
    requires forall x :: multiset(s)[x] <= 1
    ensures NoDuplicates(s)
  {
    if s != [] {
      assert s == Init(s) + [Last(s)];
      assert forall x :: multiset(Init(s))[x] <= multiset(s)[x];
      SinglesBack(Init(s));
      assert multiset(Init(s))[Last(s)] == 0;
      assert forall i :: 0 <= i < |Init(s)| ==> Init(s)[i] in multiset(Init(s));
    }
  }

  // ---- one round ----

  /** What has to go well for one handle. */
  predicate Succeeds(plan: Plan, cid: int) {
    cid in plan.infos && cid !in plan.spanFails && !(plan.infos[cid].isHttp && cid in plan.headerFails)
  }

  lemma {:induction false} OpensAll(list: seq<Info>, plan: Plan, next: nat)
    requires forall i :: 0 <= i < |list| ==> list[i].cid in plan.infos && plan.infos[list[i].cid] == list[i]
    ensures Opened(list, plan, next).1 <==> forall i :: 0 <= i < |list| ==> Succeeds(plan, list[i].cid)
    ensures Opened(list, plan, next).1 ==> HeadersOf(list, plan) == HttpCids(list)
  {
    if list != [] {
      if Succeeds(plan, list[0].cid) {
        OpensAll(list[1..], plan, next + 1);
        assert forall i :: 1 <= i < |list| ==> list[i] == list[1..][i - 1];
      }
    }
  }

  function HttpCids(list: seq<Info>): seq<int> {
    if list == [] then [] else (if list[0].isHttp then [list[0].cid] else []) + HttpCids(list[1..])
  }

  /** A list of handles as a first execution goes through them. */
  ghost predicate IsRound(list: seq<Info>, plan: Plan, handles: set<int>) {
    && Descending(list)
    && |list| == |handles|
    && (forall i :: 0 <= i < |list| ==>
        list[i].cid in handles && list[i].cid in plan.infos && plan.infos[list[i].cid] == list[i])
    && forall i, j :: 0 <= i < j < |list| ==> list[i].cid != list[j].cid
  }

  /** The state once every handle of the list has got its span. */
  ghost predicate IsAfterRound(s: State, mid: int, list: seq<Info>, t: State)
    requires mid in s.multis
  {
    var created := s.created + list;
    t == s.(created := created, injected := s.injected + HttpCids(list),
            multis := s.multis[mid := s.multis[mid].(spans := Some(AllSpans(created)[|s.created|..]))])
  }

  /** The first execution of a multi: one span for each of its handles, in
      descending order of URLs, each http handle's header injected in that order;
      or, as soon as anything fails for any of them, no open span at all. */
  lemma FirstExecutionIsAllOrNothing(s: State, mid: int, plan: Plan)
    requires mid in s.multis && s.multis[mid].spans.None? && s.multis[mid].handles != map[]
    requires Fits(plan, s.multis[mid].handles.Keys)
    ensures var handles := s.multis[mid].handles.Keys;
            var (t, r) := Begun(s, mid, plan);
            && r != NotExecuting
            && (r == Executing <==> forall cid :: cid in handles ==> Succeeds(plan, cid))
            && (r == Failed ==> t.multis == s.multis)
            && (r == Executing ==> exists list :: IsRound(list, plan, handles) && IsAfterRound(s, mid, list, t))
  {
    var handles := s.multis[mid].handles.Keys;
    KnownOfHandles(plan, handles);
    if InfosKnown(plan) {
      var list := SortDescending(Walked(plan));
      RoundOf(plan, handles);
      OpensAll(list, plan, |s.created|);
      AllSucceed(list, plan, handles);
      if Opened(list, plan, |s.created|).1 {
        RoundOpened(s, mid, plan, list);
      }
    }
  }

  /** What a first execution makes of its list when nothing fails. */
  lemma RoundOpened(s: State, mid: int, plan: Plan, list: seq<Info>)
    requires mid in s.multis && s.multis[mid].spans.None? && s.multis[mid].handles != map[] && InfosKnown(plan)
    requires list == SortDescending(Walked(plan)) && Opened(list, plan, |s.created|).1
    requires HeadersOf(list, plan) == HttpCids(list)
    ensures IsAfterRound(s, mid, list, Begun(s, mid, plan).0)
  {
    var spans := Opened(list, plan, |s.created|).0;
    OpenedNumbers(list, plan, |s.created|);
    NumbersGoOn(s.created, list, spans);
    assert list[..|spans|] == list;
    assert (AllSpans(s.created) + spans)[|s.created|..] == spans;
  }

  lemma AllSucceed(list: seq<Info>, plan: Plan, handles: set<int>)
    requires Covers(list, plan, handles)
    ensures (forall cid :: cid in handles ==> Succeeds(plan, cid))
            <==> forall i :: 0 <= i < |list| ==> Succeeds(plan, list[i].cid)
  {
    forall cid | cid in handles
      ensures exists i :: 0 <= i < |list| && list[i].cid == cid
    {
      var i :| 0 <= i < |list| && list[i] == plan.infos[cid];
    }
    assert forall i :: 0 <= i < |list| ==> list[i] in list;
  }

  lemma KnownOfHandles(plan: Plan, handles: set<int>)
    requires Fits(plan, handles)
    ensures InfosKnown(plan) <==> forall cid :: cid in handles ==> cid in plan.infos
  {
    forall i | 0 <= i < |plan.walk|
      ensures plan.walk[i] in handles
    {
      var cid := plan.walk[i];
      assert cid in plan.walk;
    }
    forall cid | cid in handles
      ensures exists i :: 0 <= i < |plan.walk| && plan.walk[i] == cid
    {
      assert cid in plan.walk;
    }
  }

  /** The walk, and so the sorted list, covers the handles. */
  ghost predicate Covers(list: seq<Info>, plan: Plan, handles: set<int>) {
    && |list| == |handles|
    && (forall x :: x in list ==> x.cid in handles && x.cid in plan.infos && plan.infos[x.cid] == x)
    && (forall cid :: cid in handles ==> cid in plan.infos && plan.infos[cid] in list && plan.infos[cid].cid == cid)
    && forall i, j :: 0 <= i < j < |list| ==> list[i].cid != list[j].cid
  }

  lemma WalkedCovers(plan: Plan, handles: set<int>)
    requires Fits(plan, handles) && InfosKnown(plan)
    ensures Covers(Walked(plan), plan, handles)
  {
    var walk, walked := plan.walk, Walked(plan);
    WalkCovers(walk, handles);
    assert forall i :: 0 <= i < |walk| ==> walk[i] in walk && walked[i].cid == walk[i];
    forall cid | cid in handles
      ensures cid in plan.infos && plan.infos[cid] in walked && plan.infos[cid].cid == cid
    {
      assert cid in walk;
      var k :| 0 <= k < |walk| && walk[k] == cid;
      assert walked[k] == plan.infos[cid];
    }
  }

  lemma SortedCovers(walked: seq<Info>, plan: Plan, handles: set<int>)
    requires Covers(walked, plan, handles)
    ensures Covers(SortDescending(walked), plan, handles)
  {
    var list := SortDescending(walked);
    SortIsSorted(walked);
    assert forall x :: x in list <==> x in walked by {
      assert forall x :: x in list <==> x in multiset(list);
      assert forall x :: x in walked <==> x in multiset(walked);
    }
    DistinctInfos(walked, list);
  }

  lemma RoundOf(plan: Plan, handles: set<int>)
    requires Fits(plan, handles) && InfosKnown(plan)
    ensures IsRound(SortDescending(Walked(plan)), plan, handles)
    ensures Covers(SortDescending(Walked(plan)), plan, handles)
  {
    WalkedCovers(plan, handles);
    SortedCovers(Walked(plan), plan, handles);
    SortIsSorted(Walked(plan));
  }

  /** Permuting infos of distinct handles keeps the handles distinct. */
  lemma DistinctInfos(s: seq<Info>, t: seq<Info>)
    requires multiset(s) == multiset(t)
    requires forall i, j :: 0 <= i < j < |s| ==> s[i].cid != s[j].cid
    ensures forall i, j :: 0 <= i < j < |t| ==> t[i].cid != t[j].cid
  {
    InfoSingles(s);
    forall i, j | 0 <= i < j < |t|
      ensures t[i].cid != t[j].cid
    {
      assert t[i] in multiset(s) && t[j] in multiset(s);
      assert t == t[..j] + [t[j]] + t[j + 1..];
      assert t[i] in multiset(t[..j]);
      assert t[i] != t[j];
    }
  }

  lemma {:induction false} InfoSingles(s: seq<Info>)
    requires forall i, j :: 0 <= i < j < |s| ==> s[i].cid != s[j].cid
    ensures forall x :: multiset(s)[x] <= 1
    ensures forall x, y :: x in multiset(s) && y in multiset(s) && x.cid == y.cid ==> x == y
  {
    if s != [] {
      InfoSingles(Init(s));
      assert s == Init(s) + [Last(s)];
      assert forall x :: x in multiset(Init(s)) ==> x.cid != Last(s).cid;
    }
  }

  lemma {:induction false} WalkCovers(walk: seq<int>, handles: set<int>)
    requires NoDuplicates(walk) && forall cid :: cid in walk <==> cid in handles
    ensures |walk| == |handles|
  {
    if walk == [] {
      forall cid ensures cid !in handles { assert cid !in walk; }
    } else {
      var last := Last(walk);
      assert walk == Init(walk) + [last] && last in walk;
      assert forall cid :: cid in Init(walk) <==> cid in handles - {last};
      WalkCovers(Init(walk), handles - {last});
    }
  }

  /** With pairwise distinct URLs nothing depends on how the hash map is walked. */
  lemma WalkLeavesNoTrace(s: State, mid: int, plan: Plan, walk: seq<int>)
    requires mid in s.multis
    requires Fits(plan, s.multis[mid].handles.Keys) && Fits(plan.(walk := walk), s.multis[mid].handles.Keys)
    requires DistinctUrls(plan.infos)
    ensures Begun(s, mid, plan) == Begun(s, mid, plan.(walk := walk))
  {
    var handles, plan' := s.multis[mid].handles.Keys, plan.(walk := walk);
    KnownOfHandles(plan, handles);
    KnownOfHandles(plan', handles);
    if InfosKnown(plan) {
      RoundOf(plan, handles);
      RoundOf(plan', handles);
      SameRound(plan, handles, SortDescending(Walked(plan)), SortDescending(Walked(plan')));
      SameOpened(SortDescending(Walked(plan)), plan, plan', |s.created|);
    }
  }

  lemma {:induction false} SameOpened(list: seq<Info>, plan: Plan, plan': Plan, next: nat)
    requires plan'.spanFails == plan.spanFails && plan'.headerFails == plan.headerFails
    ensures Opened(list, plan, next) == Opened(list, plan', next) && HeadersOf(list, plan) == HeadersOf(list, plan')
  {
    if list != [] {
      SameOpened(list[1..], plan, plan', next + 1);
    }
  }

  ghost predicate DistinctUrls(infos: map<int, Info>) {
    forall c, d :: c in infos && d in infos && infos[c].url == infos[d].url ==> c == d
  }

  lemma StrictWithDistinctUrls(list: seq<Info>, plan: Plan, handles: set<int>)
    requires Covers(list, plan, handles) && Descending(list) && DistinctUrls(plan.infos)
    ensures StrictlyDescending(list)
  {
    forall i, j | 0 <= i < j < |list|
      ensures list[j].url != list[i].url
    {
      assert list[i] in list && list[j] in list;
    }
  }

  lemma SameRound(plan: Plan, handles: set<int>, s: seq<Info>, t: seq<Info>)
    requires Covers(s, plan, handles) && Covers(t, plan, handles) && Descending(s) && Descending(t)
    requires DistinctUrls(plan.infos)
    ensures s == t
  {
    StrictWithDistinctUrls(s, plan, handles);
    StrictWithDistinctUrls(t, plan, handles);
    SortedIsUnique(s, t);
  }

  // ---- completion ----

  function Reversed(spans: seq<Span>): seq<Span> {
    if spans == [] then [] else [Last(spans)] + Reversed(Init(spans))
  }

  /** The completing execution goes through the spans backwards. It finishes those
      whose number is still registered and drops the others; exactly when a finish
      fails for such a number, the rest goes unfinished. */
  lemma {:induction false} CompletionFinishesBackwards(spans: seq<Span>, handles: Handles, finishFails: set<int>)
    requires NoDuplicates(Cids(spans))
    ensures SpansIn(Closed(spans, handles, finishFails).0) <= Filter(HandleIn(handles.Keys), Reversed(spans))
    ensures SpansIn(Closed(spans, handles, finishFails).0) == Filter(HandleIn(handles.Keys), Reversed(spans))
            <==> NoneFails(spans, handles.Keys, finishFails)
  {
    if spans != [] {
      var span, rest := Last(spans), Init(spans);
      DistinctFromLast(spans);
      FilterFirst(HandleIn(handles.Keys), span, Reversed(rest));
      FailsFirst(spans, handles.Keys, finishFails);
      if span.cid !in handles {
        CompletionFinishesBackwards(rest, handles, finishFails);
      } else if span.cid !in finishFails {
        var remaining := handles - {span.cid};
        var more := Closed(rest, remaining, finishFails).0;
        CompletionFinishesBackwards(rest, remaining, finishFails);
        SameFilter(rest, HandleIn(handles.Keys), HandleIn(remaining.Keys));
        SpansOfBoth([Finish(span, handles[span.cid])], more);
        assert SpansIn([Finish(span, handles[span.cid])] + more) == [span] + SpansIn(more);
        assert NoneFails(rest, handles.Keys, finishFails) <==> NoneFails(rest, remaining.Keys, finishFails);
      }
    }
  }

  lemma FailsFirst(spans: seq<Span>, handles: set<int>, finishFails: set<int>)
    requires spans != []
    ensures var span := Last(spans);
            NoneFails(spans, handles, finishFails)
            <==> NoneFails(Init(spans), handles, finishFails) && !(span.cid in handles && span.cid in finishFails)
  {
    assert spans == Init(spans) + [Last(spans)];
  }

  function HandleIn(handles: set<int>): Span -> bool {
    (x: Span) => x.cid in handles
  }

  ghost predicate NoneFails(spans: seq<Span>, handles: set<int>, finishFails: set<int>) {
    forall x :: x in spans && x.cid in handles ==> x.cid !in finishFails
  }

  lemma DistinctFromLast(spans: seq<Span>)
    requires spans != [] && NoDuplicates(Cids(spans))
    ensures NoDuplicates(Cids(Init(spans)))
    ensures forall x :: x in Init(spans) ==> x.cid != Last(spans).cid
  {
    var rest := Init(spans);
    assert Cids(rest) == Cids(spans)[..|rest|];
    assert Cids(spans)[|rest|] == Last(spans).cid && forall i :: 0 <= i < |rest| ==> Cids(spans)[i] == rest[i].cid;
  }

  lemma FilterFirst(p: Span -> bool, x: Span, s: seq<Span>)
    ensures Filter(p, [x] + s) == (if p(x) then [x] else []) + Filter(p, s)
  {
    FilterAppend(p, [x], s);
    FilterSnoc(p, [], x);
    assert [] + [x] == [x];
  }

  lemma {:induction false} SameFilter(spans: seq<Span>, p: Span -> bool, q: Span -> bool)
    requires forall x :: x in spans ==> p(x) == q(x)
    ensures Filter(p, Reversed(spans)) == Filter(q, Reversed(spans))
    decreases |spans|
  {
    if spans != [] {
      assert Last(spans) in spans;
      SameFilter(Init(spans), p, q);
      FilterFirst(p, Last(spans), Reversed(Init(spans)));
      FilterFirst(q, Last(spans), Reversed(Init(spans)));
    }
  }

  ghost predicate Ascends(spans: seq<Span>) {
    forall i, j :: 0 <= i < j < |spans| ==> AtMost(spans[i].url, spans[j].url)
  }

  ghost predicate Descends(spans: seq<Span>) {
    forall i, j :: 0 <= i < j < |spans| ==> AtMost(spans[j].url, spans[i].url)
  }

  ghost predicate AllIn(some: seq<Span>, spans: seq<Span>) {
    forall x :: x in some ==> x in spans
  }

  /** Opened in descending order of URLs, the spans are finished in ascending. */
  lemma {:induction false} CompletionAscends(spans: seq<Span>, handles: Handles, finishFails: set<int>)
    requires Descends(spans)
    ensures Ascends(SpansIn(Closed(spans, handles, finishFails).0))
    ensures AllIn(SpansIn(Closed(spans, handles, finishFails).0), spans)
  {
    if spans != [] {
      var span, rest := Last(spans), Init(spans);
      CompletionAscends(rest, handles, finishFails);
      if span.cid in handles && span.cid !in finishFails {
        var more := Closed(rest, handles - {span.cid}, finishFails).0;
        CompletionAscends(rest, handles - {span.cid}, finishFails);
        LowestFirst(spans, SpansIn(more));
        assert SpansIn([Finish(span, handles[span.cid])] + more) == [span] + SpansIn(more);
      }
    }
  }

  lemma LowestFirst(spans: seq<Span>, finished: seq<Span>)
    requires spans != [] && Descends(spans)
    requires Ascends(finished) && AllIn(finished, Init(spans))
    ensures Ascends([Last(spans)] + finished) && AllIn([Last(spans)] + finished, spans)
  {
    forall i | 0 <= i < |finished|
      ensures AtMost(Last(spans).url, finished[i].url)
    {
      assert finished[i] in Init(spans);
      var k :| 0 <= k < |spans| - 1 && spans[k] == finished[i];
    }
  }

  /** The open spans of a multi: of distinct handles, in descending order. */
  ghost predicate InOrder(spans: seq<Span>) {
    Descends(spans) && NoDuplicates(Cids(spans))
  }

  lemma RoundIsInOrder(list: seq<Info>, plan: Plan, handles: set<int>, created: seq<Info>)
    requires IsRound(list, plan, handles)
    ensures InOrder(AllSpans(created + list)[|created|..])
  {
    var spans := AllSpans(created + list)[|created|..];
    assert forall i :: 0 <= i < |list| ==> spans[i].cid == list[i].cid && spans[i].url == list[i].url;
  }

  lemma {:induction false} OpenSpansAreInOrder(moves: seq<Move>)
    requires IsRun(moves)
    ensures forall mid :: mid in Final(moves).multis ==> InOrder(SpansOf(Final(moves).multis[mid]))
  {
    if moves != [] {
      OpenSpansAreInOrder(Init(moves));
      var s, m := Final(Init(moves)), Last(moves);
      if m.ExecBefore? && m.mid in s.multis && s.multis[m.mid].handles != map[] && s.multis[m.mid].spans.None? {
        FirstExecutionIsAllOrNothing(s, m.mid, m.plan);
        if Begun(s, m.mid, m.plan).1 == Executing {
          var list :| IsRound(list, m.plan, s.multis[m.mid].handles.Keys) && IsAfterRound(s, m.mid, list, Final(moves));
          RoundIsInOrder(list, m.plan, s.multis[m.mid].handles.Keys, s.created);
        }
      }
    }
  }

  /** Any completing execution of any run: the multi is forgotten; the open spans
      whose numbers are still registered are finished once each, in ascending order
      of URLs, against the objects registered under these numbers by now; all of
      them exactly when none of the finishes fails. */
  lemma CompletionOfARun(moves: seq<Move>, mid: int, finishFails: set<int>)
    requires IsRun(moves) && mid in Final(moves).multis
    ensures var s := Final(moves);
            var info := s.multis[mid];
            var t := Ended(s, mid, true, Some(CURLM_OK), Some(0), finishFails);
            var more := t.finished[|s.finished|..];
            var there := Filter(HandleIn(info.handles.Keys), Reversed(SpansOf(info)));
            && mid !in t.multis && t.created == s.created && s.finished + more == t.finished
            && Ascends(SpansIn(more)) && SpansIn(more) <= there
            && (SpansIn(more) == there <==> NoneFails(SpansOf(info), info.handles.Keys, finishFails))
            && forall f :: f in more ==>
                f.span in SpansOf(info) && f.span.cid in info.handles && f.against == info.handles[f.span.cid]
  {
    var s := Final(moves);
    var info := s.multis[mid];
    var spans := SpansOf(info);
    OpenSpansAreInOrder(moves);
    CompletionFinishesBackwards(spans, info.handles, finishFails);
    CompletionAscends(spans, info.handles, finishFails);
    ClosedAgainst(spans, info.handles, finishFails);
    var t := Ended(s, mid, true, Some(CURLM_OK), Some(0), finishFails);
    var more := Closed(spans, info.handles, finishFails).0;
    assert t.finished == s.finished + more && t.finished[|s.finished|..] == more;
  }

  // ---- handles and rounds, told by the history alone ----

  /** The move ends what is known of the multi. */
  predicate Erases(m: Move, mid: int) {
    m.mid == mid && (m.Close? || (m.ExecAfter? && Completes(m.isExec, m.code, m.running)))
  }

  /** The handles added to a multi and not removed since it was last erased. */
  function Registered(moves: seq<Move>, mid: int): Handles {
    if moves == [] then map[]
    else
      var m := Last(moves);
      if Erases(m, mid) then map[]
      else if m.Add? && m.mid == mid then Registered(Init(moves), mid)[m.cid := m.obj]
      else if m.Remove? && m.mid == mid then Registered(Init(moves), mid) - {m.cid}
      else Registered(Init(moves), mid)
  }

  /** So a first execution opens its spans for exactly these handles. */
  lemma {:induction false} HandlesAreRegistered(moves: seq<Move>, mid: int)
    requires IsRun(moves)
    ensures InfoOf(Final(moves), mid).handles == Registered(moves, mid)
  {
    if moves != [] {
      HandlesAreRegistered(Init(moves), mid);
    }
  }

  /** Once a round is open its spans stay, whatever is added, removed or executed:
      no span is opened for a handle added late until the multi is erased. */
  lemma {:induction false} RoundStaysUntilErased(before: seq<Move>, since: seq<Move>, mid: int)
    requires IsRun(before + since) && forall i :: 0 <= i < |since| ==> !Erases(since[i], mid)
    ensures IsRun(before)
    ensures InfoOf(Final(before), mid).spans.Some? ==>
            InfoOf(Final(before + since), mid).spans == InfoOf(Final(before), mid).spans
  {
    if since == [] {
      assert before + since == before;
    } else {
      assert Init(before + since) == before + Init(since) && Last(before + since) == Last(since);
      assert forall i :: 0 <= i < |Init(since)| ==> Init(since)[i] == since[i];
      assert Last(since) == since[|since| - 1];
      RoundStaysUntilErased(before, Init(since), mid);
    }
  }

  /** The move is a first execution that opens a round for these handles. */
  ghost predicate OpensRound(m: Move, mid: int, handles: set<int>) {
    m.ExecBefore? && m.mid == mid && handles != {} && forall cid :: cid in handles ==> Succeeds(m.plan, cid)
  }

  /** A round has been opened since the multi was last erased. */
  ghost predicate HasRound(moves: seq<Move>, mid: int) {
    moves != [] && !Erases(Last(moves), mid)
    && (HasRound(Init(moves), mid) || OpensRound(Last(moves), mid, Registered(Init(moves), mid).Keys))
  }

  lemma {:induction false} RoundIsOpen(moves: seq<Move>, mid: int)
    requires IsRun(moves)
    ensures InfoOf(Final(moves), mid).spans.Some? <==> HasRound(moves, mid)
  {
    if moves != [] {
      RoundIsOpen(Init(moves), mid);
      HandlesAreRegistered(Init(moves), mid);
      RoundOpens(Final(Init(moves)), Last(moves), mid);
    }
  }

  lemma RoundOpens(s: State, m: Move, mid: int)
    requires Enabled(s, m)
    ensures InfoOf(Next(s, m), mid).spans.Some?
       <==> !Erases(m, mid) && (InfoOf(s, mid).spans.Some? || OpensRound(m, mid, InfoOf(s, mid).handles.Keys))
  {
    if m.ExecBefore? && m.mid == mid {
      RoundOpensNow(s, mid, m.plan);
    }
  }

  lemma RoundOpensNow(s: State, mid: int, plan: Plan)
    requires Fits(plan, InfoOf(s, mid).handles.Keys)
    ensures InfoOf(Begun(s, mid, plan).0, mid).spans.Some?
       <==> InfoOf(s, mid).spans.Some? || OpensRound(ExecBefore(0, mid, plan), mid, InfoOf(s, mid).handles.Keys)
  {
    if mid in s.multis && s.multis[mid].spans.None? && s.multis[mid].handles != map[] {
      FirstExecutionIsAllOrNothing(s, mid, plan);
    }
  }

  /** A multi that takes over a number starts empty exactly when its predecessor's
      handles had all been removed and it had no open round, since it was last
      closed or completed. Otherwise it inherits them. */
  lemma FreshMultiStartsEmptyExactly(before: seq<Move>, mid: int)
    requires IsRun(before)
    ensures IsRun(before + [Reuse(mid)])
    ensures InfoOf(Final(before + [Reuse(mid)]), mid) == MultiInfo(None, map[])
       <==> Registered(before, mid) == map[] && !HasRound(before, mid)
  {
    assert Init(before + [Reuse(mid)]) == before;
    HandlesAreRegistered(before, mid);
    RoundIsOpen(before, mid);
  }

  /** Such as one whose predecessor was freed with a handle in it. */
  lemma FreshMultiInherits()
    ensures IsRun([Add(0, 5, 0), Reuse(0)]) && InfoOf(Final([Add(0, 5, 0), Reuse(0)]), 0).handles == map[5 := 0]
  {
    assert Init([Add(0, 5, 0)]) == [] && Last([Add(0, 5, 0)]) == Add(0, 5, 0);
    assert Init([Add(0, 5, 0), Reuse(0)]) == [Add(0, 5, 0)];
  }

  // ---- whose status a span is finished with ----

  /** The move opens a round, with none open before. */
  ghost predicate BeginsRound(before: seq<Move>, m: Move, mid: int) {
    !HasRound(before, mid) && OpensRound(m, mid, Registered(before, mid).Keys)
  }

  /** The object last added under the number since the open round began. */
  ghost function AddedSince(moves: seq<Move>, mid: int, cid: int): Option<nat> {
    if moves == [] || Erases(Last(moves), mid) || BeginsRound(Init(moves), Last(moves), mid) then None
    else if Last(moves).Add? && Last(moves).mid == mid && Last(moves).cid == cid then Some(Last(moves).obj)
    else AddedSince(Init(moves), mid, cid)
  }

  /** The number was removed at some time since the open round began. */
  ghost predicate RemovedSince(moves: seq<Move>, mid: int, cid: int) {
    && moves != [] && !Erases(Last(moves), mid) && !BeginsRound(Init(moves), Last(moves), mid)
    && (Last(moves) == Remove(mid, cid) || RemovedSince(Init(moves), mid, cid))
  }

  /** The object a span will be finished against, if it is. */
  ghost predicate StandsUnder(moves: seq<Move>, mid: int, x: Span) {
    var handles, added := InfoOf(Final(moves), mid).handles, AddedSince(moves, mid, x.cid);
    && (x.cid in handles ==> handles[x.cid] == if added.Some? then added.value else x.obj)
    && (!RemovedSince(moves, mid, x.cid) ==> x.cid in handles && handles[x.cid] == x.obj)
  }

  lemma {:induction false} OpenSpansStandUnder(moves: seq<Move>, mid: int)
    requires IsRun(moves)
    ensures forall x :: x in SpansOf(InfoOf(Final(moves), mid)) ==> StandsUnder(moves, mid, x)
  {
    if moves != [] {
      OpenSpansStandUnder(Init(moves), mid);
      RoundIsOpen(Init(moves), mid);
      HandlesAreRegistered(Init(moves), mid);
      var s, m := Final(Init(moves)), Last(moves);
      RoundOpens(s, m, mid);
      if BeginsRound(Init(moves), m, mid) {
        RoundStandsUnder(moves, mid);
      } else if !Erases(m, mid) {
        forall x | x in SpansOf(InfoOf(Final(moves), mid))
          ensures StandsUnder(moves, mid, x)
        {
          StillStandsUnder(moves, mid, x);
        }
      }
    }
  }

  /** When a round begins, its spans are of the objects in the map. */
  lemma RoundStandsUnder(moves: seq<Move>, mid: int)
    requires moves != [] && IsRun(moves) && BeginsRound(Init(moves), Last(moves), mid)
    requires InfoOf(Final(Init(moves)), mid).spans.None?
    requires InfoOf(Final(Init(moves)), mid).handles == Registered(Init(moves), mid)
    ensures forall x :: x in SpansOf(InfoOf(Final(moves), mid)) ==> StandsUnder(moves, mid, x)
  {
    var s, plan := Final(Init(moves)), Last(moves).plan;
    var handles := s.multis[mid].handles;
    FirstExecutionIsAllOrNothing(s, mid, plan);
    var list :| IsRound(list, plan, handles.Keys) && IsAfterRound(s, mid, list, Final(moves));
    assert InfoOf(Final(moves), mid) == MultiInfo(Some(AllSpans(s.created + list)[|s.created|..]), handles);
    RoundIsOfTheMap(list, plan, handles, s.created);
  }

  lemma RoundIsOfTheMap(list: seq<Info>, plan: Plan, handles: Handles, created: seq<Info>)
    requires IsRound(list, plan, handles.Keys) && AsksOf(plan, handles)
    ensures forall x :: x in AllSpans(created + list)[|created|..] ==> x.cid in handles && handles[x.cid] == x.obj
  {
    var spans := AllSpans(created + list)[|created|..];
    forall i | 0 <= i < |spans|
      ensures spans[i].cid in handles && handles[spans[i].cid] == spans[i].obj
    {
      assert spans[i] == SpanFor(list[i], |created| + i);
    }
  }

  /** Any other move that leaves the round open leaves its spans; and it changes what
      is under their numbers by adding or removing only. */
  lemma StillStandsUnder(moves: seq<Move>, mid: int, x: Span)
    requires moves != [] && IsRun(moves) && !Erases(Last(moves), mid) && !BeginsRound(Init(moves), Last(moves), mid)
    requires InfoOf(Final(Init(moves)), mid).spans.Some? <==> HasRound(Init(moves), mid)
    requires InfoOf(Final(Init(moves)), mid).handles == Registered(Init(moves), mid)
    requires forall y :: y in SpansOf(InfoOf(Final(Init(moves)), mid)) ==> StandsUnder(Init(moves), mid, y)
    requires x in SpansOf(InfoOf(Final(moves), mid))
    ensures StandsUnder(moves, mid, x)
  {
    var s, m := Final(Init(moves)), Last(moves);
    NothingNew(s, m, mid);
    assert StandsUnder(Init(moves), mid, x);
  }

  /** A move that neither erases the multi nor opens a round for it. */
  lemma NothingNew(s: State, m: Move, mid: int)
    requires Enabled(s, m) && !Erases(m, mid)
    requires InfoOf(s, mid).spans.Some? || !OpensRound(m, mid, InfoOf(s, mid).handles.Keys)
    ensures InfoOf(Next(s, m), mid).spans == InfoOf(s, mid).spans
    ensures var handles := InfoOf(s, mid).handles;
            InfoOf(Next(s, m), mid).handles
            == if m.Add? && m.mid == mid then handles[m.cid := m.obj]
               else if m.Remove? && m.mid == mid then handles - {m.cid}
               else handles
  {
    if m.ExecBefore? && m.mid == mid && mid in s.multis && s.multis[mid].spans.None? && s.multis[mid].handles != map[] {
      FirstExecutionIsAllOrNothing(s, mid, m.plan);
    }
  }

  ghost predicate OwnStatusExactly(moves: seq<Move>, mid: int, f: Finish) {
    var added := AddedSince(moves, mid, f.span.cid);
    && (f.against == f.span.obj <==> added.None? || added.value == f.span.obj)
    && (!RemovedSince(moves, mid, f.span.cid) ==> f.against == f.span.obj)
  }

  /** A completing execution finishes a span with the status of the handle it was
      opened for exactly when the last handle added under its number since the
      round began, if any, is that one. It always is if the number was not
      removed meanwhile. */
  lemma FinishedWithOwnStatusExactly(moves: seq<Move>, mid: int, finishFails: set<int>)
    requires IsRun(moves) && mid in Final(moves).multis
    ensures var s := Final(moves);
            var t := Ended(s, mid, true, Some(CURLM_OK), Some(0), finishFails);
            forall f :: f in t.finished[|s.finished|..] ==> OwnStatusExactly(moves, mid, f)
  {
    CompletionOfARun(moves, mid, finishFails);
    OpenSpansStandUnder(moves, mid);
    var s := Final(moves);
    var t := Ended(s, mid, true, Some(CURLM_OK), Some(0), finishFails);
    forall f | f in t.finished[|s.finished|..]
      ensures OwnStatusExactly(moves, mid, f)
    {
      assert StandsUnder(moves, mid, f.span) && f.against == InfoOf(s, mid).handles[f.span.cid];
    }
  }

  /** The move is a completing execution that makes this finish, with the span's own
      status exactly under the condition above. */
  ghost predicate FinishedBy(before: seq<Move>, m: Move, f: Finish) {
    && m.ExecAfter? && Completes(m.isExec, m.code, m.running)
    && f in Final(before + [m]).finished[|Final(before).finished|..]
    && OwnStatusExactly(before, m.mid, f)
  }

  ghost predicate IsFinishedIn(moves: seq<Move>, f: Finish) {
    exists k :: 0 <= k < |moves| && FinishedBy(moves[..k], moves[k], f)
  }

  /** And so it is for every span that is ever finished. */
  lemma {:induction false} EveryFinishExactly(moves: seq<Move>, i: nat)
    requires IsRun(moves) && i < |Final(moves).finished|
    ensures IsFinishedIn(moves, Final(moves).finished[i])
  {
    if i < |Final(Init(moves)).finished| {
      EveryFinishExactly(Init(moves), i);
      FinishedGrows(Final(Init(moves)), Last(moves));
      FinishedStays(moves, Final(moves).finished[i]);
    } else {
      FinishedLast(moves, i);
    }
  }

  lemma FinishedStays(moves: seq<Move>, f: Finish)
    requires moves != [] && IsFinishedIn(Init(moves), f)
    ensures IsFinishedIn(moves, f)
  {
    var before := Init(moves);
    var k :| 0 <= k < |before| && FinishedBy(before[..k], before[k], f);
    assert before[..k] == moves[..k] && before[k] == moves[k];
  }

  /** Only a completing execution finishes anything. */
  lemma FinishedGrows(s: State, m: Move)
    ensures s.finished <= Next(s, m).finished
    ensures Next(s, m).finished != s.finished ==>
              m.ExecAfter? && Completes(m.isExec, m.code, m.running) && m.mid in s.multis
  {
  }

  lemma AmongTheNew(finished: seq<Finish>, n: nat, i: nat)
    requires n <= i < |finished|
    ensures finished[i] in finished[n..]
  {
    assert finished[i] == finished[n..][i - n];
  }

  lemma FinishedLast(moves: seq<Move>, i: nat)
    requires moves != [] && IsRun(moves) && |Final(Init(moves)).finished| <= i < |Final(moves).finished|
    ensures IsFinishedIn(moves, Final(moves).finished[i])
  {
    var before, m, n := Init(moves), Last(moves), |Final(Init(moves)).finished|;
    FinishedGrows(Final(before), m);
    FinishedWithOwnStatusExactly(before, m.mid, m.finishFails);
    assert moves[..|moves| - 1] == before && before + [m] == moves;
    AmongTheNew(Final(moves).finished, n, i);
    assert FinishedBy(moves[..|moves| - 1], moves[|moves| - 1], Final(moves).finished[i]);
  }

  /** The rolling window: a handle that is done is removed and freed while others
      run, the next one gets its number and is added. At completion the first
      one's span is finished with the next one's status, and nothing is dropped. */
  lemma RollingWindowMixesUp()
    ensures var plan := Plan([5], map[5 := Info(5, 0, "u", false)], {}, {});
            var moves := [Add(0, 5, 0), ExecBefore(0, 0, plan), Remove(0, 5), Add(0, 5, 1),
                          ExecAfter(0, 0, true, Some(CURLM_OK), Some(0), {})];
            && IsRun(moves) && Final(moves).dropped == []
            && Final(moves).finished == [Finish(Span(5, 0, "u", 0), 1)]
  {
    var info := Info(5, 0, "u", false);
    var plan := Plan([5], map[5 := info], {}, {});
    var m0, m1, m2, m3 := Add(0, 5, 0), ExecBefore(0, 0, plan), Remove(0, 5), Add(0, 5, 1);
    var m4 := ExecAfter(0, 0, true, Some(CURLM_OK), Some(0), {});
    var span := SpanFor(info, 0);
    WindowOpens(info);
    Extend([m0, m1], m2, WindowOf(span, map[]));
    assert [m0, m1] + [m2] == [m0, m1, m2];
    Extend([m0, m1, m2], m3, WindowOf(span, map[5 := 1]));
    assert [m0, m1, m2] + [m3] == [m0, m1, m2, m3];
    WindowCloses(span, 1, m4);
    Extend([m0, m1, m2, m3], m4, Next(WindowOf(span, map[5 := 1]), m4));
    assert [m0, m1, m2, m3] + [m4] == [m0, m1, m2, m3, m4];
  }

  function WindowOf(span: Span, handles: Handles): State {
    State(map[0 := MultiInfo(Some([span]), handles)], [Info(span.cid, span.obj, span.url, false)], [], [], [])
  }

  lemma WindowCloses(span: Span, obj: nat, m: Move)
    requires m == ExecAfter(0, 0, true, Some(CURLM_OK), Some(0), {})
    ensures Next(WindowOf(span, map[span.cid := obj]), m).finished == [Finish(span, obj)]
    ensures Next(WindowOf(span, map[span.cid := obj]), m).dropped == []
  {
    var handles: Handles := map[span.cid := obj];
    assert Init([span]) == [] && Closed([], handles - {span.cid}, {}) == ([], []);
    assert Closed([span], handles, {}).0 == [Finish(span, obj)] + [] && Closed([span], handles, {}).1 == [];
    assert [] + ([Finish(span, obj)] + []) == [Finish(span, obj)];
  }

  lemma Extend(moves: seq<Move>, m: Move, t: State)
    requires IsRun(moves) && Enabled(Final(moves), m) && Answers(moves, m) && Next(Final(moves), m) == t
    ensures IsRun(moves + [m]) && Final(moves + [m]) == t
    ensures !m.ExecBefore? && !m.ExecAfter? ==> forall call :: ResultOf(moves + [m], call) == ResultOf(moves, call)
    ensures m.ExecBefore? ==> ResultOf(moves + [m], m.call) == Some((m.mid, Begun(Final(moves), m.mid, m.plan).1))
  {
    assert Init(moves + [m]) == moves;
  }

  lemma WindowOpens(info: Info)
    requires info == Info(5, 0, "u", false)
    ensures var moves := [Add(0, 5, 0), ExecBefore(0, 0, Plan([5], map[5 := info], {}, {}))];
            && IsRun(moves)
            && Final(moves) == WindowOf(SpanFor(info, 0), map[5 := 0]) && ResultOf(moves, 0) == Some((0, Executing))
  {
    var plan := Plan([5], map[5 := info], {}, {});
    var m0, m1 := Add(0, 5, 0), ExecBefore(0, 0, plan);
    var s := State(map[0 := MultiInfo(None, map[5 := 0])], [], [], [], []);
    Extend([], m0, s);
    assert [] + [m0] == [m0];
    assert AsksOf(plan, map[5 := 0]) by { assert plan.walk[0] == 5; }
    OneIsOpened(plan, info);
    assert Begun(s, 0, plan).0 == WindowOf(SpanFor(info, 0), map[5 := 0]);
    Extend([m0], m1, WindowOf(SpanFor(info, 0), map[5 := 0]));
    assert [m0] + [m1] == [m0, m1];
  }

  lemma OneIsOpened(plan: Plan, info: Info)
    requires info == Info(5, 0, "u", false) && plan == Plan([5], map[5 := info], {}, {})
    ensures InfosKnown(plan) && SortDescending(Walked(plan)) == [info] && [] + [info][..1] == [info]
    ensures Opened([info], plan, 0).0 == [SpanFor(info, 0)] && Opened([info], plan, 0).1
    ensures [] + HeadersOf([info], plan) == []
  {
    assert Walked(plan) == [info] && Init([info]) == [] && SortDescending([info]) == [info];
    assert [info][1..] == [];
    assert Opened([info], plan, 0).0 == [SpanFor(info, 0)] + [] && HeadersOf([info], plan) == [] + [];
  }

  // ---- what the before hook answers, and what a completing execution leaves ----

  /** The before hook answers that curl is executing exactly when the multi has handles
      and, by now, an open round; it answers that curl is not exactly when the
      multi has no handles; and it fails exactly when a round is to be opened and
      something fails for one of the handles. */
  lemma ResultExactly(moves: seq<Move>)
    requires moves != [] && IsRun(moves) && Last(moves).ExecBefore?
    ensures var m := Last(moves);
            var r, handles := Begun(Final(Init(moves)), m.mid, m.plan).1, Registered(moves, m.mid);
            && ResultOf(moves, m.call) == Some((m.mid, r)) && handles == Registered(Init(moves), m.mid)
            && (r == Executing <==> handles != map[] && HasRound(moves, m.mid))
            && (r == NotExecuting <==> handles == map[])
            && (r == Failed <==> && !HasRound(Init(moves), m.mid)
                                 && exists cid :: cid in handles && !Succeeds(m.plan, cid))
  {
    var s, m := Final(Init(moves)), Last(moves);
    HandlesAreRegistered(Init(moves), m.mid);
    RoundIsOpen(Init(moves), m.mid);
    if m.mid in s.multis && s.multis[m.mid].spans.None? && s.multis[m.mid].handles != map[] {
      FirstExecutionIsAllOrNothing(s, m.mid, m.plan);
    }
  }

  /** A call that has not ended with OK, or with something still running, or that was
      not executing, changes nothing; any other forgets the multi. */
  lemma OnlyCompletionEnds(s: State, mid: int, isExec: bool, code: Option<int>, running: Option<int>,
                           finishFails: set<int>)
    ensures !isExec || code != Some(0) || running != Some(0) ==> Ended(s, mid, isExec, code, running, finishFails) == s
    ensures isExec && code == Some(0) && running == Some(0) ==>
              mid !in Ended(s, mid, isExec, code, running, finishFails).multis
  {
  }

  predicate NotIts(m: Move, call: nat) {
    !(m.ExecBefore? && m.call == call) && !(m.ExecAfter? && m.call == call)
  }

  lemma {:induction false} ResultStays(before: seq<Move>, during: seq<Move>, call: nat)
    requires forall i :: 0 <= i < |during| ==> NotIts(during[i], call)
    ensures ResultOf(before + during, call) == ResultOf(before, call)
  {
    if during == [] {
      assert before + during == before;
    } else {
      assert Init(before + during) == before + Init(during) && Last(before + during) == Last(during);
      assert Last(during) == during[|during| - 1];
      assert forall i :: 0 <= i < |Init(during)| ==> Init(during)[i] == during[i];
      ResultStays(before, Init(during), call);
    }
  }

  lemma {:induction false} PrefixIsRun(before: seq<Move>, during: seq<Move>)
    requires IsRun(before + during)
    ensures IsRun(before)
  {
    if during == [] {
      assert before + during == before;
    } else {
      assert Init(before + during) == before + Init(during);
      PrefixIsRun(before, Init(during));
    }
  }

  /** The span has been finished or dropped. */
  ghost predicate IsOver(s: State, x: Span) {
    (x in SpansIn(s.finished) || x in s.dropped) && HasEnded(s, x)
  }

  /** An execution that begins on a multi with handles and, after its before hook, an
      open round, and that ends with OK and nothing running, forgets the multi and
      leaves none of its spans open. */
  lemma ExecutionCompletes(before: seq<Move>, call: nat, mid: int, plan: Plan, during: seq<Move>, isExec: bool,
                           finishFails: set<int>)
    requires var begun := before + [ExecBefore(call, mid, plan)];
             && IsRun(begun + during + [ExecAfter(call, mid, isExec, Some(0), Some(0), finishFails)])
             && Registered(begun, mid) != map[] && HasRound(begun, mid)
    requires forall i :: 0 <= i < |during| ==> NotIts(during[i], call)
    ensures var begun := before + [ExecBefore(call, mid, plan)];
            var t := Final(begun + during + [ExecAfter(call, mid, isExec, Some(0), Some(0), finishFails)]);
            && isExec && mid !in t.multis
            && forall x :: x in SpansOf(InfoOf(Final(begun + during), mid)) ==> IsOver(t, x)
  {
    var begun, m := before + [ExecBefore(call, mid, plan)], ExecAfter(call, mid, isExec, Some(0), Some(0), finishFails);
    var moves := begun + during + [m];
    assert Init(moves) == begun + during && Last(moves) == m;
    PrefixIsRun(begun, during);
    assert Init(begun) == before && Last(begun) == ExecBefore(call, mid, plan);
    ResultExactly(begun);
    ResultStays(begun, during, call);
    var s := Final(begun + during);
    OnlyCompletionEnds(s, mid, isExec, Some(0), Some(0), finishFails);
    SpansEndOnce(moves);
    forall x | x in SpansOf(InfoOf(s, mid))
      ensures IsOver(Final(moves), x)
    {
      EndsOpenSpan(s, mid, finishFails, x);
    }
  }

  lemma EndsOpenSpan(s: State, mid: int, finishFails: set<int>, x: Span)
    requires x in SpansOf(InfoOf(s, mid))
    ensures var t := Ended(s, mid, true, Some(0), Some(0), finishFails);
            x in SpansIn(t.finished) || x in t.dropped
  {
    var spans, handles := s.multis[mid].spans.value, s.multis[mid].handles;
    ClosedPartitions(spans, handles, finishFails);
    var (finished, dropped) := Closed(spans, handles, finishFails);
    assert x in multiset(spans);
    assert x in multiset(SpansIn(finished)) || x in multiset(dropped);
    SpansOfBoth(s.finished, finished);
  }

  /** How far a list gets whose opening fails. */
  lemma {:induction false} OpensUpTo(list: seq<Info>, plan: Plan, next: nat) returns (k: nat)
    requires forall i :: 0 <= i < |list| ==> list[i].cid in plan.infos && plan.infos[list[i].cid] == list[i]
    requires !Opened(list, plan, next).1
    ensures k < |list| && !Succeeds(plan, list[k].cid) && forall i :: 0 <= i < k ==> Succeeds(plan, list[i].cid)
    ensures |Opened(list, plan, next).0| == if list[k].cid in plan.spanFails then k else k + 1
    ensures HeadersOf(list, plan) == HttpCids(list[..k])
  {
    if !Succeeds(plan, list[0].cid) {
      k := 0;
    } else {
      var j := OpensUpTo(list[1..], plan, next + 1);
      k := j + 1;
      assert list[..k][1..] == list[1..][..j];
      forall i | 0 <= i < k
        ensures Succeeds(plan, list[i].cid)
      {
        assert i > 0 ==> list[i] == list[1..][i - 1];
      }
    }
  }

  /** What a first execution that fails for the k-th handle of its list leaves. */
  ghost predicate IsAfterFailure(s: State, list: seq<Info>, plan: Plan, k: nat, t: State)
    requires k < |list|
  {
    var created := s.created + list[..if list[k].cid in plan.spanFails then k else k + 1];
    t == s.(created := created, injected := s.injected + HttpCids(list[..k]),
            dropped := s.dropped + AllSpans(created)[|s.created|..])
  }

  /** A first execution that fails: either a handle cannot be asked, and nothing has
      happened; or the spans up to the first handle for which something fails were
      opened and are dropped, that handle's own only if it was its header that
      failed, and the headers before it have been injected. */
  lemma FailedExecutionLeaves(s: State, mid: int, plan: Plan)
    requires mid in s.multis && s.multis[mid].spans.None? && s.multis[mid].handles != map[]
    requires Fits(plan, s.multis[mid].handles.Keys) && Begun(s, mid, plan).1 == Failed
    ensures var handles, t := s.multis[mid].handles.Keys, Begun(s, mid, plan).0;
            || (t == s && exists cid :: cid in handles && cid !in plan.infos)
            || exists list: seq<Info>, k :: && IsRound(list, plan, handles) && 0 <= k < |list|
                && !Succeeds(plan, list[k].cid)
                                 && (forall i :: 0 <= i < k ==> Succeeds(plan, list[i].cid))
                                 && IsAfterFailure(s, list, plan, k, t)
  {
    var handles := s.multis[mid].handles.Keys;
    KnownOfHandles(plan, handles);
    if InfosKnown(plan) {
      var list := SortDescending(Walked(plan));
      RoundOf(plan, handles);
      var k := OpensUpTo(list, plan, |s.created|);
      var spans := Opened(list, plan, |s.created|).0;
      OpenedNumbers(list, plan, |s.created|);
      NumbersGoOn(s.created, list, spans);
      assert (AllSpans(s.created) + spans)[|s.created|..] == spans;
      assert IsAfterFailure(s, list, plan, k, Begun(s, mid, plan).0);
    }
  }
}
