/** What becomes of every item a thread reports, told by the steps of a run alone:
    while its connection holds and the queue is open, no item is dropped but one that
    cannot be encoded or that a full queue refuses. */
module Accounts {
  import opened Common
  import opened Pipeline
  import opened Wire

  // ---- reports, told by the history ----

  /** The items a thread of a process has reported. */
  function ReportedIn(steps: seq<Step>, id: nat, thread: nat): seq<Item> {
    if steps == [] then []
    else
      ReportedIn(Init(steps), id, thread)
      + match Last(steps)
        case OnConn(conn, Report(t, item)) => if conn == id && t == thread then [item] else []
        case _ => []
  }

  /** The thread has reported an item and not got the mutex since. */
  predicate Waits(steps: seq<Step>, id: nat, thread: nat) {
    steps != [] &&
    match Last(steps)
    case OnConn(conn, Report(t, _)) => (conn == id && t == thread) || Waits(Init(steps), id, thread)
    case OnConn(conn, Acquire(t)) => !(conn == id && t == thread) && Waits(Init(steps), id, thread)
    case _ => Waits(Init(steps), id, thread)
  }

  /** What it has reported, without the item it waits with. */
  function TriedIn(steps: seq<Step>, id: nat, thread: nat): seq<Item> {
    var reported := ReportedIn(steps, id, thread);
    if Waits(steps, id, thread) && reported != [] then Init(reported) else reported
  }

  predicate Broke(steps: seq<Step>, id: nat) {
    steps != [] && (Last(steps) == OnConn(id, Break) || Broke(Init(steps), id))
  }

  lemma {:induction false} ReportsAreHistory(codec: Codec, steps: seq<Step>, id: nat, thread: nat)
    requires IsRun(codec, steps)
    ensures var c := ConnOf(Final(codec, steps), id);
            && ReportedBy(c, thread) == ReportedIn(steps, id, thread)
            && (thread in c.waiting <==> Waits(steps, id, thread))
            && (c.broken <==> Broke(steps, id))
  {
    if steps != [] {
      ReportsAreHistory(codec, Init(steps), id, thread);
      ReportsGoOn(codec, Final(codec, Init(steps)), Last(steps), id, thread);
      assert ReportedIn(Init(steps), id, thread) + [] == ReportedIn(Init(steps), id, thread);
    }
  }

  /** What a step of a connection does to the reports of a thread. */
  ghost predicate ReportsFollow(c: Conn, sub: ConnStep, d: Conn, thread: nat) {
    && (d.broken <==> c.broken || sub.Break?)
    && match sub
       case Report(t, item) =>
         && ReportedBy(d, thread) == ReportedBy(c, thread) + (if t == thread then [item] else [])
         && (thread in d.waiting <==> t == thread || thread in c.waiting)
       case Acquire(t) =>
         ReportedBy(d, thread) == ReportedBy(c, thread) && (thread in d.waiting <==> t != thread && thread in c.waiting)
       case _ => ReportedBy(d, thread) == ReportedBy(c, thread) && (thread in d.waiting <==> thread in c.waiting)
  }

  lemma SteppedReports(codec: Codec, c: Conn, sub: ConnStep, thread: nat)
    requires CanStep(c, sub)
    ensures ReportsFollow(c, sub, Stepped(codec, c, sub), thread)
  {
    assert ReportedBy(c, thread) + [] == ReportedBy(c, thread);
  }

  lemma ReportsGoOn(codec: Codec, s: State, step: Step, id: nat, thread: nat)
    requires Enabled(s, step)
    ensures var c, d := ConnOf(s, id), ConnOf(Next(codec, s, step), id);
            if step.OnConn? && step.conn == id then ReportsFollow(c, step.step, d, thread)
            else d.reported == c.reported && d.waiting == c.waiting && d.broken == c.broken
  {
    if step.OnConn? && step.conn == id { SteppedReports(codec, ConnOf(s, id), step.step, thread); }
  }

  // ---- every item that can be encoded is sent ----

  function Encodable(codec: Codec): Item -> bool {
    (x: Item) => codec.encode(x).Some?
  }

  /** While the connection holds, the items of a thread that got to be written are all
      the encodable ones it has tried to send. */
  ghost predicate SendsAll(codec: Codec, c: Conn, thread: nat) {
    !c.broken ==> ItemsOf(Filter(OfThread(thread), c.accepted)) == Filter(Encodable(codec), Tried(c, thread))
  }

  lemma StepKeepsSendsAll(codec: Codec, c: Conn, step: ConnStep, thread: nat)
    requires InReportOrder(c) && SendsAll(codec, c, thread) && CanStep(c, step)
    ensures SendsAll(codec, Stepped(codec, c, step), thread)
  {
    if step.Acquire? {
      AcquireSends(codec, c, step.thread, thread);
    } else {
      TriedStays(codec, c, step, thread);
    }
  }

  lemma AcquireSends(codec: Codec, c: Conn, t: nat, thread: nat)
    requires InReportOrder(c) && SendsAll(codec, c, thread) && CanStep(c, Acquire(t))
    ensures SendsAll(codec, Stepped(codec, c, Acquire(t)), thread)
  {
    var d, item := Stepped(codec, c, Acquire(t)), c.waiting[t];
    if t != thread {
      assert Tried(d, thread) == Tried(c, thread);
    } else {
      assert Tried(d, thread) == Tried(c, thread) + [item];
      FilterSnoc(Encodable(codec), Tried(c, thread), item);
    }
    if !c.broken && codec.encode(item).Some? {
      var entry := Entry(t, item, codec.encode(item).value);
      FilterSnoc(OfThread(thread), c.accepted, entry);
      ItemsSnoc(Filter(OfThread(thread), c.accepted), entry);
    }
    assert Filter(OfThread(thread), c.accepted) + [] == Filter(OfThread(thread), c.accepted);
    assert Filter(Encodable(codec), Tried(c, thread)) + [] == Filter(Encodable(codec), Tried(c, thread));
  }

  lemma ItemsSnoc(entries: seq<Entry>, entry: Entry)
    ensures ItemsOf(entries + [entry]) == ItemsOf(entries) + [entry.item]
  {
  }

  lemma {:induction false} RunsSendAll(codec: Codec, steps: seq<Step>, id: nat, thread: nat)
    requires Sound(codec) && IsRun(codec, steps)
    ensures SendsAll(codec, ConnOf(Final(codec, steps), id), thread)
  {
    if steps == [] {
      assert Filter(OfThread(thread), FRESH.accepted) == [] && Tried(FRESH, thread) == [];
    } else {
      RunsSendAll(codec, Init(steps), id, thread);
      RunsKeepConnInv(codec, Init(steps), id);
      var s := Final(codec, Init(steps));
      if Last(steps).OnConn? && Last(steps).conn == id {
        StepKeepsSendsAll(codec, ConnOf(s, id), Last(steps).step, thread);
      } else {
        OthersAcceptNothing(codec, s, Last(steps), id, thread);
      }
    }
  }

  lemma OthersAcceptNothing(codec: Codec, s: State, step: Step, id: nat, thread: nat)
    requires Enabled(s, step) && !(step.OnConn? && step.conn == id)
    ensures var c, d := ConnOf(s, id), ConnOf(Next(codec, s, step), id);
            d.accepted == c.accepted && Tried(d, thread) == Tried(c, thread) && d.broken == c.broken
  {
  }

  /** As long as a process's connection has not broken, all encodable items a thread
      has reported, but for the one it waits with, have got to be written, in the
      order it reported them, and nothing else of it. */
  lemma EveryItemIsSent(codec: Codec, steps: seq<Step>, id: nat, thread: nat)
    requires Sound(codec) && IsRun(codec, steps) && !Broke(steps, id)
    ensures ItemsOf(Filter(OfThread(thread), ConnOf(Final(codec, steps), id).accepted))
         == Filter(Encodable(codec), TriedIn(steps, id, thread))
  {
    RunsSendAll(codec, steps, id, thread);
    ReportsAreHistory(codec, steps, id, thread);
  }

  // ---- every item that is received passes or is discarded ----

  /** While the queue is open, the received items of a connection are those that
      passed into the queue and those that were discarded, put together. */
  ghost predicate Accounted(s: State, id: nat) {
    var c := ConnOf(s, id);
    s.open ==>
      && c.received <= |c.accepted|
      && IsMerge(c.accepted[..c.received], Entries(Filter(From(FromConn(id)), s.passed)),
                 Entries(Filter(From(FromConn(id)), s.discarded)))
  }

  lemma AccountedStays(s: State, t: State, id: nat)
    requires Accounted(s, id) && (t.open ==> s.open)
    requires ConnOf(s, id).received <= |ConnOf(s, id).accepted|
    requires ConnOf(t, id).received == ConnOf(s, id).received && ConnOf(s, id).accepted <= ConnOf(t, id).accepted
    requires Filter(From(FromConn(id)), t.passed) == Filter(From(FromConn(id)), s.passed)
    requires Filter(From(FromConn(id)), t.discarded) == Filter(From(FromConn(id)), s.discarded)
    ensures Accounted(t, id)
  {
    var k := ConnOf(s, id).received;
    assert ConnOf(t, id).accepted[..k] == ConnOf(s, id).accepted[..k];
  }

  lemma EntriesSnoc(xs: seq<Tagged>, x: Tagged)
    ensures Entries(xs + [x]) == Entries(xs) + [x.entry]
  {
  }

  lemma OneMoreAccounted(accepted: seq<Entry>, k: nat, passed: seq<Tagged>, discarded: seq<Tagged>, x: Tagged)
    requires k < |accepted| && x.entry == accepted[k] && IsMerge(accepted[..k], Entries(passed), Entries(discarded))
    ensures IsMerge(accepted[..k + 1], Entries(passed + [x]), Entries(discarded))
    ensures IsMerge(accepted[..k + 1], Entries(passed), Entries(discarded + [x]))
  {
    assert accepted[..k + 1] == accepted[..k] + [x.entry];
    MergeSnoc(accepted[..k], Entries(passed), Entries(discarded), x.entry);
    EntriesSnoc(passed, x);
    EntriesSnoc(discarded, x);
  }

  lemma SendIsAccounted(s: State, id: nat, x: Tagged)
    requires Accounted(s, id) && s.open
    requires var c := ConnOf(s, id); c.received < |c.accepted| && x == Tagged(FromConn(id), c.accepted[c.received])
    ensures Accounted(TrySend(s.(conns := s.conns[id := AfterOffer(ConnOf(s, id), true)]), x), id)
  {
    var c := ConnOf(s, id);
    TrySendFrom(s.(conns := s.conns[id := AfterOffer(c, true)]), x, FromConn(id));
    OneMoreAccounted(c.accepted, c.received, Filter(From(FromConn(id)), s.passed),
                     Filter(From(FromConn(id)), s.discarded), x);
  }

  lemma OfferIsAccounted(codec: Codec, s: State, id: nat)
    requires Sound(codec) && Accounted(s, id) && ConnInv(codec, s, id) && Enabled(s, Offer(id))
    ensures Accounted(Next(codec, s, Offer(id)), id)
  {
    var c := ConnOf(s, id);
    FrameIsNext(codec, c);
    var x := Tagged(FromConn(id), c.accepted[c.received]);
    assert Next(codec, s, Offer(id)) == TrySend(s.(conns := s.conns[id := AfterOffer(c, s.open)]), x);
    if s.open { SendIsAccounted(s, id, x); }
  }

  /** The other steps leave a connection's passed and discarded items alone. */
  lemma OthersPassNothing(codec: Codec, s: State, step: Step, id: nat)
    requires Enabled(s, step) && step != Offer(id)
    ensures Filter(From(FromConn(id)), Next(codec, s, step).passed) == Filter(From(FromConn(id)), s.passed)
    ensures Filter(From(FromConn(id)), Next(codec, s, step).discarded) == Filter(From(FromConn(id)), s.discarded)
  {
    var mine := From(FromConn(id));
    assert Filter(mine, s.passed) + [] == Filter(mine, s.passed);
    assert Filter(mine, s.discarded) + [] == Filter(mine, s.discarded);
    if step.Offer? {
      var c := ConnOf(s, step.conn);
      if Offered(codec, c).Some? {
        TrySendFrom(s.(conns := s.conns[step.conn := AfterOffer(c, s.open)]),
                    Tagged(FromConn(step.conn), EntryOf(c, Offered(codec, c).value)), FromConn(id));
      }
    } else if step.Beat? {
      TrySendFrom(s.(beats := s.beats + [step.item]), Tagged(Heartbeat, Entry(0, step.item, [])), FromConn(id));
    }
  }

  lemma OthersReceiveNothing(codec: Codec, s: State, step: Step, id: nat)
    requires Enabled(s, step) && step != Offer(id)
    ensures var c, d := ConnOf(s, id), ConnOf(Next(codec, s, step), id);
            d.received == c.received && c.accepted <= d.accepted && (Next(codec, s, step).open ==> s.open)
  {
  }

  lemma OthersStayAccounted(codec: Codec, s: State, step: Step, id: nat)
    requires Accounted(s, id) && PassedOn(s, id) && Enabled(s, step) && step != Offer(id)
    ensures Accounted(Next(codec, s, step), id)
  {
    OthersPassNothing(codec, s, step, id);
    OthersReceiveNothing(codec, s, step, id);
    AccountedStays(s, Next(codec, s, step), id);
  }

  lemma {:induction false} RunsAreAccounted(codec: Codec, steps: seq<Step>, id: nat)
    requires Sound(codec) && IsRun(codec, steps)
    ensures Accounted(Final(codec, steps), id)
  {
    if steps == [] {
      assert Filter(From(FromConn(id)), INITIAL.passed) == [] && Entries([]) == [];
    } else {
      RunsAreAccounted(codec, Init(steps), id);
      RunsKeepConnInv(codec, Init(steps), id);
      if Last(steps) == Offer(id) {
        OfferIsAccounted(codec, Final(codec, Init(steps)), id);
      } else {
        OthersStayAccounted(codec, Final(codec, Init(steps)), Last(steps), id);
      }
    }
  }

  // ---- when a task is gone ----

  /** A task leaves its loop only at the end of its stream, or at a closed queue. */
  ghost predicate GoneWell(s: State, id: nat) {
    var c := ConnOf(s, id);
    c.reader.Gone? ==> !s.open || (c.broken && c.socket == [])
  }

  lemma {:induction false} TasksAreGoneWell(codec: Codec, steps: seq<Step>, id: nat)
    requires IsRun(codec, steps)
    ensures GoneWell(Final(codec, steps), id)
  {
    if steps != [] {
      TasksAreGoneWell(codec, Init(steps), id);
      StepGoesWell(codec, Final(codec, Init(steps)), Last(steps), id);
    }
  }

  lemma StepGoesWell(codec: Codec, s: State, step: Step, id: nat)
    requires GoneWell(s, id) && Enabled(s, step)
    ensures GoneWell(Next(codec, s, step), id)
  {
  }

  /** So while the connection holds and the queue is open, the task is there. */
  lemma TaskStays(codec: Codec, steps: seq<Step>, id: nat)
    requires IsRun(codec, steps) && !Broke(steps, id) && Final(codec, steps).open
    ensures !ConnOf(Final(codec, steps), id).reader.Gone?
  {
    TasksAreGoneWell(codec, steps, id);
    ReportsAreHistory(codec, steps, id, 0);
  }

  // ---- the whole account ----

  lemma {:induction false} MergeItems(c: seq<Entry>, a: seq<Entry>, b: seq<Entry>)
    requires IsMerge(c, a, b)
    ensures IsMerge(ItemsOf(c), ItemsOf(a), ItemsOf(b))
    decreases |c|
  {
    if c != [] {
      var x := Last(c);
      assert c == Init(c) + [x];
      ItemsSnoc(Init(c), x);
      if a != [] && Last(a) == x && IsMerge(Init(c), Init(a), b) {
        MergeItems(Init(c), Init(a), b);
        assert a == Init(a) + [x];
        ItemsSnoc(Init(a), x);
        MergeSnoc(ItemsOf(Init(c)), ItemsOf(Init(a)), ItemsOf(b), x.item);
      } else {
        MergeItems(Init(c), a, Init(b));
        assert b == Init(b) + [x];
        ItemsSnoc(Init(b), x);
        MergeSnoc(ItemsOf(Init(c)), ItemsOf(a), ItemsOf(Init(b)), x.item);
      }
    }
  }

  /** The items of one thread of one process within a part of the pipeline. */
  function ItemsFrom(xs: seq<Tagged>, id: nat, thread: nat): seq<Item> {
    ItemsOf(Filter(OfThread(thread), Entries(Filter(From(FromConn(id)), xs))))
  }

  lemma ItemsFromBoth(a: seq<Tagged>, b: seq<Tagged>, id: nat, thread: nat)
    ensures ItemsFrom(a + b, id, thread) == ItemsFrom(a, id, thread) + ItemsFrom(b, id, thread)
  {
    var mine := From(FromConn(id));
    FilterAppend(mine, a, b);
    assert Entries(Filter(mine, a) + Filter(mine, b)) == Entries(Filter(mine, a)) + Entries(Filter(mine, b));
    FilterAppend(OfThread(thread), Entries(Filter(mine, a)), Entries(Filter(mine, b)));
  }

  /** Nothing is under way on the connection: all is written and read. */
  ghost predicate Drained(c: Conn) {
    c.socket == [] && c.remaining == [] && !HasFrame(c)
  }

  /** Of a process whose connection holds and is drained, while the queue is open: the
      encodable items a thread has reported, but for the one it waits with, are
      its consumed and queued ones, in order, and those a full queue has refused. */
  lemma EveryItemIsAccountedFor(codec: Codec, steps: seq<Step>, id: nat, thread: nat)
    requires Sound(codec) && IsRun(codec, steps) && !Broke(steps, id)
    requires Final(codec, steps).open && Drained(ConnOf(Final(codec, steps), id))
    ensures var s := Final(codec, steps);
            IsMerge(Filter(Encodable(codec), TriedIn(steps, id, thread)),
                    ItemsFrom(s.consumed, id, thread) + ItemsFrom(s.queue, id, thread),
                    ItemsFrom(s.discarded, id, thread))
  {
    var s := Final(codec, steps);
    var c, mine := ConnOf(s, id), From(FromConn(id));
    TaskStays(codec, steps, id);
    NothingIsLostInTransit(codec, steps, id);
    RunsAreAccounted(codec, steps, id);
    RunsKeepQueueInv(codec, steps);
    EveryItemIsSent(codec, steps, id, thread);
    assert c.accepted[..c.received] == c.accepted;
    var passed, discarded := Entries(Filter(mine, s.passed)), Entries(Filter(mine, s.discarded));
    MergeFilter(OfThread(thread), c.accepted, passed, discarded);
    MergeItems(Filter(OfThread(thread), c.accepted), Filter(OfThread(thread), passed),
               Filter(OfThread(thread), discarded));
    ItemsFromBoth(s.consumed, s.queue, id, thread);
  }

  /** The items the heartbeat has reported. */
  function BeatsIn(steps: seq<Step>): seq<Item> {
    if steps == [] then []
    else BeatsIn(Init(steps)) + match Last(steps) case Beat(item) => [item] case _ => []
  }

  lemma {:induction false} BeatsAreHistory(codec: Codec, steps: seq<Step>)
    requires IsRun(codec, steps)
    ensures Final(codec, steps).beats == BeatsIn(steps)
  {
    if steps != [] {
      BeatsAreHistory(codec, Init(steps));
      assert BeatsIn(Init(steps)) + [] == BeatsIn(Init(steps));
    }
  }

  // ---- nothing gets stuck ----

  lemma OneMoreStep(codec: Codec, steps: seq<Step>, step: Step)
    requires IsRun(codec, steps) && Enabled(Final(codec, steps), step)
    ensures IsRun(codec, steps + [step]) && Final(codec, steps + [step]) == Next(codec, Final(codec, steps), step)
  {
    assert Init(steps + [step]) == steps;
  }

  lemma StillUnbroken(steps: seq<Step>, step: Step, id: nat)
    ensures step != OnConn(id, Break) ==> (Broke(steps + [step], id) <==> Broke(steps, id))
  {
    assert Init(steps + [step]) == steps;
  }

  /** While a connection holds, a thread that waits can always get its turn: the holder
      of the mutex can finish its frame and unlock. */
  lemma WaitingThreadCanGo(codec: Codec, steps: seq<Step>, id: nat, thread: nat) returns (more: seq<Step>)
    requires Sound(codec) && IsRun(codec, steps) && !Broke(steps, id) && Waits(steps, id, thread)
    ensures IsRun(codec, steps + more) && !Broke(steps + more, id) && !Waits(steps + more, id, thread)
    ensures ReportedIn(steps + more, id, thread) == ReportedIn(steps, id, thread)
  {
    var flushed := Flushed(codec, steps, id);
    var c := ConnOf(Final(codec, steps + flushed), id);
    ReportsAreHistory(codec, steps + flushed, id, thread);
    var run := steps + flushed;
    if c.holder.Some? {
      OneMoreStep(codec, run, OnConn(id, Unlock));
      StillUnbroken(run, OnConn(id, Unlock), id);
      SameReports(run, OnConn(id, Unlock), id, thread);
      run := run + [OnConn(id, Unlock)];
    }
    ReportsAreHistory(codec, run, id, thread);
    OneMoreStep(codec, run, OnConn(id, Acquire(thread)));
    StillUnbroken(run, OnConn(id, Acquire(thread)), id);
    SameReports(run, OnConn(id, Acquire(thread)), id, thread);
    run := run + [OnConn(id, Acquire(thread))];
    assert Last(run) == OnConn(id, Acquire(thread));
    more := run[|steps|..];
    assert steps + more == run;
  }

  lemma SameReports(steps: seq<Step>, step: Step, id: nat, thread: nat)
    requires step.OnConn? ==> !step.step.Report?
    ensures ReportedIn(steps + [step], id, thread) == ReportedIn(steps, id, thread)
    ensures step != OnConn(id, Acquire(thread)) ==> (Waits(steps + [step], id, thread) <==> Waits(steps, id, thread))
  {
    assert Init(steps + [step]) == steps && Last(steps + [step]) == step;
    assert ReportedIn(steps, id, thread) + [] == ReportedIn(steps, id, thread);
  }

  /** The rest of a frame can be written. */
  lemma Flushed(codec: Codec, steps: seq<Step>, id: nat) returns (more: seq<Step>)
    requires Sound(codec) && IsRun(codec, steps) && !Broke(steps, id)
    ensures IsRun(codec, steps + more) && !Broke(steps + more, id)
    ensures ConnOf(Final(codec, steps + more), id).remaining == []
            && Final(codec, steps + more).open == Final(codec, steps).open
    ensures forall thread :: && ReportedIn(steps + more, id, thread) == ReportedIn(steps, id, thread)
                             && (Waits(steps + more, id, thread) <==> Waits(steps, id, thread))
  {
    var c := ConnOf(Final(codec, steps), id);
    RunsKeepConnInv(codec, steps, id);
    ReportsAreHistory(codec, steps, id, 0);
    if c.remaining == [] {
      more := [];
      assert steps + more == steps;
    } else {
      var write := OnConn(id, Write(|c.remaining|));
      more := [write];
      OneMoreStep(codec, steps, write);
      StillUnbroken(steps, write, id);
      forall thread
        ensures ReportedIn(steps + more, id, thread) == ReportedIn(steps, id, thread)
        ensures Waits(steps + more, id, thread) <==> Waits(steps, id, thread)
      {
        SameReports(steps, write, id, thread);
      }
    }
  }

  /** What the task still has to do with a connection that is written to no more. */
  function Work(c: Conn): nat {
    2 * |c.socket| + if HasFrame(c) then 1 else 0
  }

  /** While a connection holds and the queue is open, all that has been sent can be
      received: its task reads what is there, frame by frame, and offers it. */
  lemma {:induction false} CanDrain(codec: Codec, steps: seq<Step>, id: nat) returns (more: seq<Step>)
    requires Sound(codec) && IsRun(codec, steps) && !Broke(steps, id) && Final(codec, steps).open
    ensures IsRun(codec, steps + more) && !Broke(steps + more, id) && Final(codec, steps + more).open
    ensures Drained(ConnOf(Final(codec, steps + more), id))
  {
    var flushed := Flushed(codec, steps, id);
    var received := CanReceive(codec, steps + flushed, id);
    more := flushed + received;
    assert steps + more == steps + flushed + received;
  }

  /** The run so far leaves the connection whole and the queue open. */
  ghost predicate Holds(codec: Codec, steps: seq<Step>, id: nat) {
    IsRun(codec, steps) && !Broke(steps, id) && Final(codec, steps).open
  }

  ghost function ConnAfter(codec: Codec, steps: seq<Step>, id: nat): Conn
    requires IsRun(codec, steps)
  {
    ConnOf(Final(codec, steps), id)
  }

  lemma {:induction false} CanReceive(codec: Codec, steps: seq<Step>, id: nat) returns (more: seq<Step>)
    requires Sound(codec) && Holds(codec, steps, id) && ConnAfter(codec, steps, id).remaining == []
    ensures Holds(codec, steps + more, id) && Drained(ConnAfter(codec, steps + more, id))
    decreases Work(ConnAfter(codec, steps, id))
  {
    if Drained(ConnAfter(codec, steps, id)) {
      more := [];
      assert steps + more == steps;
    } else {
      var step := TaskStep(codec, steps, id);
      var rest := CanReceive(codec, steps + [step], id);
      more := [step] + rest;
      assert steps + more == steps + [step] + rest;
    }
  }

  /** The task takes a step: it offers a whole frame, or reads. */
  lemma TaskStep(codec: Codec, steps: seq<Step>, id: nat) returns (step: Step)
    requires Sound(codec) && Holds(codec, steps, id)
    requires !Drained(ConnAfter(codec, steps, id)) && ConnAfter(codec, steps, id).remaining == []
    ensures Holds(codec, steps + [step], id) && ConnAfter(codec, steps + [step], id).remaining == []
    ensures Work(ConnAfter(codec, steps + [step], id)) < Work(ConnAfter(codec, steps, id))
  {
    var s := Final(codec, steps);
    RunsKeepConnInv(codec, steps, id);
    TaskStays(codec, steps, id);
    step := NextOfTask(codec, s, id);
    OneMoreStep(codec, steps, step);
    StillUnbroken(steps, step, id);
  }

  lemma NextOfTask(codec: Codec, s: State, id: nat) returns (step: Step)
    requires s.open && Aligned(codec, ConnOf(s, id)) && !ConnOf(s, id).reader.Gone?
    requires !Drained(ConnOf(s, id)) && ConnOf(s, id).remaining == []
    ensures Enabled(s, step) && step != OnConn(id, Break)
    ensures var t := Next(codec, s, step);
            t.open && ConnOf(t, id).remaining == [] && Work(ConnOf(t, id)) < Work(ConnOf(s, id))
  {
    var c := ConnOf(s, id);
    if HasFrame(c) {
      step := Offer(id);
    } else {
      var n := if Wanted(c.reader) < |c.socket| then Wanted(c.reader) else |c.socket|;
      step := OnConn(id, Read(n));
    }
  }
}
