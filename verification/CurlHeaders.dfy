/** CURL_HEADERS: the header lists a PHP program has given its curl handles, kept
    so that the agent can send them on together with its own header. */
module CurlHeaders {
  import opened Common

  const CURLOPT_HTTPHEADER := 10023

  /** The option the agent itself uses, so that its own call is told apart. */
  const SKY_CURLOPT_HTTPHEADER := 9923

  datatype Value = List(lines: seq<string>) | NotAList

  /** A header option as it reaches curl. */
  datatype Sent = Sent(cid: int, option: int, lines: seq<string>)

  type Headers = map<int, Value>

  function AgentLine(sw8: string): string {
    "sw8: " + sw8
  }

  class CurlHeaders {
    var headers: Headers
    /** What the agent has handed to curl. */
    var sent: seq<Sent>

    constructor ()
      ensures headers == map[] && sent == []
    {
      headers, sent := map[], [];
    }

    /** The before hook of `curl_setopt`: the option curl will be called with. */
    method HookSetopt(cid: Option<int>, option: int, value: Value) returns (r: Option<int>)
      modifies `headers
      ensures cid.None? ==> r == None
      ensures cid.Some? ==> r == Some(if option == 9923 then 10023 else option)
      ensures headers == if cid.None? then old(headers) else AfterSet(old(headers), cid.value, option, value)
    {
      if cid.None? {
        return None;
      }
      if option == SKY_CURLOPT_HTTPHEADER {
        return Some(CURLOPT_HTTPHEADER);
      } else if option == CURLOPT_HTTPHEADER {
        if value.List? {
          headers := headers[cid.value := value];
        }
      }
      return Some(option);
    }

    /** The before hook of `curl_setopt_array`; it does not test for a list. */
    method HookSetoptArray(cid: Option<int>, value: Option<Value>) returns (ok: bool)
      modifies `headers
      ensures ok <==> cid.Some?
      ensures headers == if cid.Some? && value.Some? then old(headers)[cid.value := value.value] else old(headers)
    {
      if cid.None? {
        return false;
      }
      if value.Some? {
        headers := headers[cid.value := value.value];
      }
      return true;
    }

    method HookClose(cid: Option<int>) returns (ok: bool)
      modifies `headers
      ensures ok <==> cid.Some?
      ensures headers == if cid.Some? then old(headers) - {cid.value} else old(headers)
    {
      if cid.None? {
        return false;
      }
      headers := headers - {cid.value};
      return true;
    }

    /** `inject_sw_header`: the remembered list is taken, extended and handed to
        curl; the agent's own `curl_setopt` passes through the hook above, which
        lets it through as the real option and remembers nothing of it. `accepted`
        says whether that call succeeds; what is remembered is gone either way. */
    method InjectSwHeader(cid: int, sw8: Option<string>, accepted: bool) returns (ok: bool)
      modifies this
      ensures ok <==> sw8.Some? && (accepted || (cid in old(headers) && old(headers)[cid].NotAList?))
      ensures headers == if sw8.Some? then old(headers) - {cid} else old(headers)
      ensures sent == old(sent) + Injection(old(headers), cid, sw8, accepted)
    {
      if sw8.None? {
        return false;
      }
      var value := List([]);
      if cid in headers {
        value := headers[cid];
        headers := headers - {cid};
      }
      assert headers == old(headers) - {cid};
      match value {
        case NotAList =>
        case List(lines) =>
          var all := lines + [AgentLine(sw8.value)];
          var option := HookSetopt(Some(cid), SKY_CURLOPT_HTTPHEADER, List(all));
          if !accepted {
            return false;
          }
          sent := sent + [Sent(cid, option.value, all)];
      }
      return true;
    }
  }

  function AfterSet(headers: Headers, cid: int, option: int, value: Value): Headers {
    if option == CURLOPT_HTTPHEADER && value.List? then headers[cid := value] else headers
  }

  /** What an injection gives curl: nothing when it fails, or when what is
      remembered is not a list; else that list and the agent's line, last. */
  function Injection(headers: Headers, cid: int, sw8: Option<string>, accepted: bool): seq<Sent> {
    var value := if cid in headers then headers[cid] else List([]);
    if sw8.None? || value.NotAList? || !accepted then []
    else [Sent(cid, CURLOPT_HTTPHEADER, value.lines + [AgentLine(sw8.value)])]
  }

  // ---- runs ----

  datatype Move =
    | Set(cid: int, option: int, value: Value)
    | SetArray(cid: int, entry: Option<Value>)
    | Close(cid: int)
    | Inject(cid: int, sw8: Option<string>, accepted: bool)
    /** The handle object is freed and its id goes to a new one. Nothing tells
        the agent. */
    | Reuse(cid: int)

  datatype State = State(headers: Headers, sent: seq<Sent>)

  function Next(s: State, m: Move): State {
    match m
    case Set(cid, option, value) => s.(headers := AfterSet(s.headers, cid, option, value))
    case SetArray(cid, entry) => s.(headers := if entry.Some? then s.headers[cid := entry.value] else s.headers)
    case Close(cid) => s.(headers := s.headers - {cid})
    case Inject(cid, sw8, accepted) =>
      State(if sw8.Some? then s.headers - {cid} else s.headers, s.sent + Injection(s.headers, cid, sw8, accepted))
    case Reuse(_) => s
  }

  function Final(moves: seq<Move>): State {
    if moves == [] then State(map[], []) else Next(Final(Init(moves)), Last(moves))
  }

  /** The move gives the handle this value, in the program's own words. */
  predicate Supplies(m: Move, cid: int, value: Value) {
    || (m == Set(cid, CURLOPT_HTTPHEADER, value) && value.List?)
    || m == SetArray(cid, Some(value))
  }

  /** The move makes the agent forget what it remembers of the handle. */
  predicate Forgets(m: Move, cid: int) {
    m == Close(cid) || (m.Inject? && m.cid == cid && m.sw8.Some?)
  }

  predicate SuppliesAny(m: Move, cid: int) {
    m.cid == cid && ((m.Set? && m.option == CURLOPT_HTTPHEADER && m.value.List?) || (m.SetArray? && m.entry.Some?))
  }

  /** What is remembered of a handle, told by the history alone: what it was last
      given, unless that has been closed or sent since. */
  function Remembered(moves: seq<Move>, cid: int): Option<Value> {
    if moves == [] then None
    else if SuppliesAny(Last(moves), cid) then (if Last(moves).Set? then Some(Last(moves).value) else Last(moves).entry)
    else if Forgets(Last(moves), cid) then None
    else Remembered(Init(moves), cid)
  }

  lemma {:induction false} HeadersAreRemembered(moves: seq<Move>, cid: int)
    ensures Remembered(moves, cid) == if cid in Final(moves).headers then Some(Final(moves).headers[cid]) else None
  {
    if moves != [] {
      HeadersAreRemembered(Init(moves), cid);
    }
  }

  lemma {:induction false} RememberedIsSupplied(moves: seq<Move>, cid: int)
    requires Remembered(moves, cid).Some?
    ensures exists i :: 0 <= i < |moves| && Supplies(moves[i], cid, Remembered(moves, cid).value)
  {
    var value := Remembered(moves, cid).value;
    if SuppliesAny(Last(moves), cid) {
      assert Supplies(moves[|moves| - 1], cid, value);
    } else {
      RememberedIsSupplied(Init(moves), cid);
      var i :| 0 <= i < |Init(moves)| && Supplies(Init(moves)[i], cid, value);
      assert Supplies(moves[i], cid, value);
    }
  }

  /** The move injects the trace header that the last line of the list carries. */
  predicate InjectsLastOf(m: Move, x: Sent) {
    && m.Inject? && m.cid == x.cid && m.sw8.Some? && m.accepted
    && x.lines != [] && Last(x.lines) == "sw8: " + m.sw8.value
  }

  /** A list as the agent may hand it to curl: lines the program gave this handle
      in one piece, or none, and one line with a trace header after them. */
  ghost predicate FromTheProgram(moves: seq<Move>, x: Sent) {
    && x.option == 10023
    && x.lines != []
    && (exists i :: 0 <= i < |moves| && InjectsLastOf(moves[i], x))
    && (Init(x.lines) == [] || exists i :: 0 <= i < |moves| && Supplies(moves[i], x.cid, List(Init(x.lines))))
  }

  lemma {:induction false} OneAgentLineAlwaysLast(moves: seq<Move>)
    ensures forall i :: 0 <= i < |Final(moves).sent| ==> FromTheProgram(moves, Final(moves).sent[i])
  {
    if moves != [] {
      OneAgentLineAlwaysLast(Init(moves));
      var was, now := Final(Init(moves)).sent, Final(moves).sent;
      forall i | 0 <= i < |now|
        ensures FromTheProgram(moves, now[i])
      {
        if i < |was| {
          assert now[i] == was[i] && FromTheProgram(Init(moves), was[i]);
          StillFromTheProgram(moves, was[i]);
        } else {
          InjectionIsFromTheProgram(moves);
        }
      }
    }
  }

  lemma StillFromTheProgram(moves: seq<Move>, x: Sent)
    requires moves != [] && FromTheProgram(Init(moves), x)
    ensures FromTheProgram(moves, x)
  {
    var j :| 0 <= j < |Init(moves)| && InjectsLastOf(Init(moves)[j], x);
    assert InjectsLastOf(moves[j], x);
    if Init(x.lines) != [] {
      var i :| 0 <= i < |Init(moves)| && Supplies(Init(moves)[i], x.cid, List(Init(x.lines)));
      assert Supplies(moves[i], x.cid, List(Init(x.lines)));
    }
  }

  lemma InjectionIsFromTheProgram(moves: seq<Move>)
    requires moves != [] && Last(moves).Inject?
    ensures var m := Last(moves);
            var injection := Injection(Final(Init(moves)).headers, m.cid, m.sw8, m.accepted);
            forall x :: x in injection ==> FromTheProgram(moves, x)
  {
    var cid, headers, m := Last(moves).cid, Final(Init(moves)).headers, Last(moves);
    HeadersAreRemembered(Init(moves), cid);
    forall x | x in Injection(headers, m.cid, m.sw8, m.accepted)
      ensures InjectsLastOf(moves[|moves| - 1], x)
    {
    }
    if Last(moves).sw8.Some? && cid in headers && headers[cid].List? {
      RememberedIsSupplied(Init(moves), cid);
      var i :| 0 <= i < |Init(moves)| && Supplies(Init(moves)[i], cid, headers[cid]);
      assert Supplies(moves[i], cid, headers[cid]);
      assert Init(headers[cid].lines + [AgentLine(Last(moves).sw8.value)]) == headers[cid].lines;
    }
  }

  /** Neither given nor closed in this stretch. */
  predicate LeftAlone(moves: seq<Move>, cid: int) {
    forall i :: 0 <= i < |moves| ==> !SuppliesAny(moves[i], cid) && moves[i] != Close(cid)
  }

  predicate Injected(moves: seq<Move>, cid: int) {
    exists i :: 0 <= i < |moves| && moves[i].Inject? && moves[i].cid == cid && moves[i].sw8.Some?
  }

  lemma InjectedSooner(since: seq<Move>, cid: int)
    requires since != []
    ensures var m := Last(since);
            Injected(since, cid) <==> Injected(Init(since), cid) || (m.Inject? && m.cid == cid && m.sw8.Some?)
  {
    assert forall i :: 0 <= i < |Init(since)| ==> Init(since)[i] == since[i];
    assert Last(since) == since[|since| - 1];
  }

  lemma {:induction false} RememberedUntilInjected(before: seq<Move>, since: seq<Move>, cid: int)
    requires LeftAlone(since, cid)
    ensures Remembered(before + since, cid) == if Injected(since, cid) then None else Remembered(before, cid)
  {
    if since == [] {
      assert before + since == before;
    } else {
      assert Init(before + since) == before + Init(since) && Last(before + since) == Last(since);
      assert LeftAlone(Init(since), cid) by {
        assert forall i :: 0 <= i < |Init(since)| ==> Init(since)[i] == since[i];
      }
      RememberedUntilInjected(before, Init(since), cid);
      assert Last(since) == since[|since| - 1];
      InjectedSooner(since, cid);
    }
  }

  /** The program's lines go out with the first injection after it gave them, and
      with no later one: a second request on the handle carries the agent's line
      alone, in place of the program's. */
  lemma {:induction false} UserLinesAreSentOnce(before: seq<Move>, given: Move, cid: int, lines: seq<string>,
                                                since: seq<Move>, sw8: string)
    requires Supplies(given, cid, List(lines)) && LeftAlone(since, cid)
    ensures var moves := before + [given] + since;
            Final(moves + [Inject(cid, Some(sw8), true)]).sent ==
            Final(moves).sent + [Sent(cid, CURLOPT_HTTPHEADER,
                                      (if Injected(since, cid) then [] else lines) + ["sw8: " + sw8])]
  {
    var moves := before + [given] + since;
    RememberedUntilInjected(before + [given], since, cid);
    assert Last(before + [given]) == given;
    HeadersAreRemembered(moves, cid);
    assert Init(moves + [Inject(cid, Some(sw8), true)]) == moves;
    assert [] + [AgentLine(sw8)] == [AgentLine(sw8)];
  }

  /** A handle that reuses the id of one that was neither closed nor used since it
      was given headers inherits them: the first injection on the new handle sends
      the agent's line alone exactly when nothing was remembered. */
  lemma {:induction false} ReusedHandleInherits(before: seq<Move>, cid: int, since: seq<Move>, sw8: string)
    requires LeftAlone(since, cid) && !Injected(since, cid)
    ensures var moves := before + [Reuse(cid)] + since;
            var alone := [Sent(cid, CURLOPT_HTTPHEADER, ["sw8: " + sw8])];
            Final(moves + [Inject(cid, Some(sw8), true)]).sent == Final(moves).sent + alone
            <==> Remembered(before, cid).None? || Remembered(before, cid) == Some(List([]))
  {
    var moves := before + [Reuse(cid)] + since;
    RememberedUntilInjected(before + [Reuse(cid)], since, cid);
    assert Init(before + [Reuse(cid)]) == before && Last(before + [Reuse(cid)]) == Reuse(cid);
    HeadersAreRemembered(moves, cid);
    assert Init(moves + [Inject(cid, Some(sw8), true)]) == moves;
    var injection := Injection(Final(moves).headers, cid, Some(sw8), true);
    assert Final(moves + [Inject(cid, Some(sw8), true)]).sent == Final(moves).sent + injection;
    assert [] + [AgentLine(sw8)] == [AgentLine(sw8)];
    var alone := [Sent(cid, CURLOPT_HTTPHEADER, [AgentLine(sw8)])];
    assert Final(moves).sent + injection == Final(moves).sent + alone ==> injection == alone by {
      assert (Final(moves).sent + injection)[|Final(moves).sent|..] == injection;
      assert (Final(moves).sent + alone)[|Final(moves).sent|..] == alone;
    }
    if injection == alone && cid in Final(moves).headers {
      assert |Final(moves).headers[cid].lines + [AgentLine(sw8)]| == 1;
    }
  }

  /** Such as one whose predecessor was freed with a list of the program's. */
  lemma ReusedHandleSendsAnothersLines(line: string, sw8: string)
    ensures var moves := [Set(1, CURLOPT_HTTPHEADER, List([line])), Reuse(1), Inject(1, Some(sw8), true)];
            Final(moves).sent == [Sent(1, CURLOPT_HTTPHEADER, [line, "sw8: " + sw8])]
  {
    var m0, m1, m2 := Set(1, CURLOPT_HTTPHEADER, List([line])), Reuse(1), Inject(1, Some(sw8), true);
    assert Init([m0]) == [] && Init([m0, m1]) == [m0] && Init([m0, m1, m2]) == [m0, m1];
    assert Final([m0]) == State(map[1 := List([line])], []) && Final([m0, m1]) == Final([m0]);
    assert [line] + [AgentLine(sw8)] == [line, AgentLine(sw8)];
    var sent := Sent(1, CURLOPT_HTTPHEADER, [line, AgentLine(sw8)]);
    assert [] + [sent] == [sent];
  }

  /** What an injection does after any run: without a trace header nothing; otherwise
      what is remembered is gone, and a list, or none, has gone to curl with one
      line for the trace header behind it, if curl accepts it; what is no list
      keeps the header from being sent. */
  lemma InjectionExactly(moves: seq<Move>, cid: int, sw8: Option<string>, accepted: bool)
    ensures var s, t := Final(moves), Final(moves + [Inject(cid, sw8, accepted)]);
            match sw8
            case None => t == s
            case Some(header) =>
              && Remembered(moves + [Inject(cid, sw8, accepted)], cid) == None && t.headers == s.headers - {cid}
              && match Remembered(moves, cid)
                 case Some(NotAList) => t.sent == s.sent
                 case Some(List(lines)) =>
                   t.sent == s.sent + if accepted then [Sent(cid, 10023, lines + ["sw8: " + header])] else []
                 case None => t.sent == s.sent + if accepted then [Sent(cid, 10023, ["sw8: " + header])] else []
  {
    var m := Inject(cid, sw8, accepted);
    assert Init(moves + [m]) == moves && Last(moves + [m]) == m;
    HeadersAreRemembered(moves, cid);
    assert Final(moves).sent + [] == Final(moves).sent;
    if sw8.Some? { assert [] + [AgentLine(sw8.value)] == ["sw8: " + sw8.value]; }
  }
}
