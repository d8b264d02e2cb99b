/** Reporting, end to end: threads of PHP processes send items over one connection
    per process; a task per connection receives them and offers them, like the
    heartbeat, to a bounded queue; one consumer empties it. Every thread, task and
    byte moves on its own. */
module Pipeline {
  import opened Common
  import opened Wire

  const CAPACITY: nat := 255

  /** An item on its way, with the thread that reported it. */
  datatype Entry = Entry(thread: nat, item: Item, content: seq<Byte>)

  /** The state of a connection's task: reading a length, reading a body of that
      length, or gone. */
  datatype Reader = Header(got: seq<Byte>) | Body(header: seq<Byte>, got: seq<Byte>) | Gone

  /** A connection. `reported` is what each thread has reported; `waiting` what it
      is waiting for the mutex with. The holder of the mutex has written all but
      `remaining` of its frame. `accepted` lists the items that got to be written,
      in that order, and `received` counts the frames that came out. */
  datatype Conn = Conn(reported: map<nat, seq<Item>>, waiting: map<nat, Item>,
                       holder: Option<nat>, remaining: seq<Byte>, broken: bool,
                       socket: seq<Byte>, reader: Reader,
                       accepted: seq<Entry>, received: nat)

  const FRESH := Conn(map[], map[], None, [], false, [], Header([]), [], 0)

  function ReportedBy(c: Conn, thread: nat): seq<Item> {
    if thread in c.reported then c.reported[thread] else []
  }

  function Contents(entries: seq<Entry>): seq<seq<Byte>> {
    seq(|entries|, i requires 0 <= i < |entries| => entries[i].content)
  }

  // ---- the steps of one connection, up to the queue ----

  datatype ConnStep =
    | Report(thread: nat, item: Item)
    /** The mutex is free and the thread gets it. */
    | Acquire(thread: nat)
    /** The holder writes some bytes. */
    | Write(n: nat)
    | Unlock
    /** The peer is gone: the write at hand fails, and all later ones do. */
    | Break
    /** The task reads some bytes. */
    | Read(n: nat)
    /** The stream has ended. */
    | Eof

  predicate CanStep(c: Conn, step: ConnStep) {
    match step
    case Report(thread, _) => thread !in c.waiting && c.holder != Some(thread)
    case Acquire(thread) => c.holder.None? && thread in c.waiting
    case Write(n) => c.holder.Some? && !c.broken && 1 <= n <= |c.remaining|
    case Unlock => c.holder.Some? && c.remaining == []
    case Break => !c.broken
    case Read(n) => 1 <= n <= |c.socket| && n <= Wanted(c.reader)
    case Eof => c.socket == [] && c.broken
  }

  /** How many bytes the task is still waiting for. */
  function Wanted(r: Reader): nat {
    match r
    case Header(got) => if |got| < SIZE_BYTES then SIZE_BYTES - |got| else 0
    case Body(header, got) => if |got| < FromLe(header) then FromLe(header) - |got| else 0
    case Gone => 0
  }

  /** The reader once it has got its eight bytes goes on to the body. */
  function Got(r: Reader, bytes: seq<Byte>): Reader {
    match r
    case Header(got) => if |got + bytes| < SIZE_BYTES then Header(got + bytes) else Body(got + bytes, [])
    case Body(header, got) => Body(header, got + bytes)
    case Gone => Gone
  }

  function Stepped(codec: Codec, c: Conn, step: ConnStep): Conn
    requires CanStep(c, step)
  {
    match step
    case Report(thread, item) =>
      c.(reported := c.reported[thread := ReportedBy(c, thread) + [item]], waiting := c.waiting[thread := item])
    case Acquire(thread) =>
      var item := c.waiting[thread];
      var content := codec.encode(item);
      var d := c.(waiting := c.waiting - {thread});
      if content.None? || c.broken then d
      else d.(holder := Some(thread), remaining := Frame(content.value),
              accepted := c.accepted + [Entry(thread, item, content.value)])
    case Write(n) => c.(socket := c.socket + c.remaining[..n], remaining := c.remaining[n..])
    case Unlock => c.(holder := None)
    case Break => c.(broken := true, holder := None)
    case Read(n) => c.(socket := c.socket[n..], reader := Got(c.reader, c.socket[..n]))
    case Eof => c.(reader := Gone)
  }

  /** The task has got a whole frame. */
  predicate HasFrame(c: Conn) {
    c.reader.Body? && |c.reader.got| == FromLe(c.reader.header)
  }

  /** And offers its item to the queue, or skips it if it cannot be decoded. */
  function Offered(codec: Codec, c: Conn): Option<Item>
    requires HasFrame(c)
  {
    codec.decode(c.reader.got)
  }

  function AfterOffer(c: Conn, open: bool): Conn {
    c.(reader := if open then Header([]) else Gone, received := c.received + 1)
  }

  // ---- what a connection keeps ----

  /** The bytes of the current frame that have been read. */
  function Partial(r: Reader): seq<Byte> {
    match r
    case Header(got) => got
    case Body(header, got) => header + got
    case Gone => []
  }

  /** Every byte of every accepted frame is in one place, in order: read, in the
      socket, or not yet written; and the task is at a frame boundary when it
      should be. */
  ghost predicate Aligned(codec: Codec, c: Conn) {
    && (forall i :: 0 <= i < |c.accepted| ==> codec.encode(c.accepted[i].item) == Some(c.accepted[i].content))
    && c.received <= |c.accepted|
    && (!c.reader.Gone? ==>
          Stream(Contents(c.accepted)) == Stream(Contents(c.accepted[..c.received]))
              + (Partial(c.reader) + c.socket + c.remaining))
    && (c.holder.None? && !c.broken ==> c.remaining == [])
    && (c.reader.Header? ==> |c.reader.got| < SIZE_BYTES)
    && (c.reader.Body? ==> |c.reader.header| == SIZE_BYTES && |c.reader.got| <= FromLe(c.reader.header))
  }

  lemma AlignedSendable(codec: Codec, c: Conn)
    requires Sound(codec) && Aligned(codec, c)
    ensures Sendable(Contents(c.accepted))
  {
    forall i | 0 <= i < |c.accepted|
      ensures |Contents(c.accepted)[i]| < SIZE_LIMIT
    {
      assert codec.encode(c.accepted[i].item).Some?;
    }
  }

  lemma WrittenBehind(a: seq<Byte>, b: seq<Byte>, frame: seq<Byte>)
    ensures a + (b + []) + frame == a + (b + frame)
  {
    assert b + [] == b;
  }

  lemma AcquireAligned(codec: Codec, c: Conn, thread: nat)
    requires Aligned(codec, c) && CanStep(c, Acquire(thread))
    ensures Aligned(codec, Stepped(codec, c, Acquire(thread)))
  {
    var d := Stepped(codec, c, Acquire(thread));
    if d.holder.Some? {
      var content := codec.encode(c.waiting[thread]).value;
      assert c.remaining == [];
      assert Init(Contents(d.accepted)) == Contents(c.accepted) && Last(Contents(d.accepted)) == content;
      assert d.accepted[..c.received] == c.accepted[..c.received];
      WrittenBehind(Stream(Contents(c.accepted[..c.received])), Partial(c.reader) + c.socket, Frame(content));
    } else {
      assert d.accepted == c.accepted && d.remaining == c.remaining && d.socket == c.socket;
    }
  }

  lemma StepKeepsAligned(codec: Codec, c: Conn, step: ConnStep)
    requires Aligned(codec, c) && CanStep(c, step)
    ensures Aligned(codec, Stepped(codec, c, step))
  {
    match step
    case Report(_, _) =>
    case Acquire(thread) => AcquireAligned(codec, c, thread);
    case Write(n) => WriteAligned(codec, c, n);
    case Unlock =>
    case Break =>
    case Read(n) => ReadAligned(codec, c, n);
    case Eof =>
  }

  lemma WriteAligned(codec: Codec, c: Conn, n: nat)
    requires Aligned(codec, c) && CanStep(c, Write(n))
    ensures Aligned(codec, Stepped(codec, c, Write(n)))
  {
    var partial, out, rest := Partial(c.reader), c.remaining[..n], c.remaining[n..];
    assert out + rest == c.remaining;
    Regrouped(partial + c.socket, c.remaining, [], n);
    assert partial + (c.socket + out) + rest == partial + c.socket + out + rest + [];
    assert partial + c.socket + c.remaining + [] == partial + c.socket + c.remaining;
  }

  lemma ReadAligned(codec: Codec, c: Conn, n: nat)
    requires Aligned(codec, c) && CanStep(c, Read(n))
    ensures Aligned(codec, Stepped(codec, c, Read(n)))
  {
    var d := Stepped(codec, c, Read(n));
    assert Partial(d.reader) == Partial(c.reader) + c.socket[..n];
    Regrouped(Partial(c.reader), c.socket, c.remaining, n);
  }

  /** Moving the boundary between two stretches of bytes. */
  lemma Regrouped(a: seq<Byte>, b: seq<Byte>, c: seq<Byte>, n: nat)
    requires n <= |b|
    ensures a + b[..n] + b[n..] + c == a + b + c
  {
    assert b == b[..n] + b[n..];
    assert a + b == a + b[..n] + b[n..];
  }

  lemma StreamSplits(entries: seq<Entry>, k: nat)
    requires k <= |entries|
    ensures Stream(Contents(entries)) == Stream(Contents(entries[..k])) + Stream(Contents(entries[k..]))
  {
    assert Contents(entries) == Contents(entries[..k]) + Contents(entries[k..]);
    StreamAppend(Contents(entries[..k]), Contents(entries[k..]));
  }

  lemma SameTail(front: seq<Byte>, a: seq<Byte>, b: seq<Byte>)
    requires front + a == front + b
    ensures a == b
  {
    assert (front + a)[|front|..] == a && (front + b)[|front|..] == b;
  }

  /** What is read, in the socket and unwritten is the stream still ahead. */
  lemma AheadIs(codec: Codec, c: Conn)
    requires Aligned(codec, c) && !c.reader.Gone?
    ensures Stream(Contents(c.accepted[c.received..])) == Partial(c.reader) + c.socket + c.remaining
  {
    StreamSplits(c.accepted, c.received);
    SameTail(Stream(Contents(c.accepted[..c.received])), Stream(Contents(c.accepted[c.received..])),
             Partial(c.reader) + c.socket + c.remaining);
  }

  /** The frame a task has got is that of the next accepted item, whole. */
  lemma FrameIsNext(codec: Codec, c: Conn)
    requires Sound(codec) && Aligned(codec, c) && HasFrame(c)
    ensures c.received < |c.accepted|
    ensures Offered(codec, c) == Some(c.accepted[c.received].item)
    ensures Stream(Contents(c.accepted[c.received + 1..])) == c.socket + c.remaining
  {
    var header, body, rest := c.reader.header, c.reader.got, c.socket + c.remaining;
    AheadIs(codec, c);
    AheadSendable(codec, c);
    SameGrouping(header + body, c.socket, c.remaining);
    SameGrouping(header, body, rest);
    FirstFrameIs(Contents(c.accepted[c.received..]), header, body, rest);
    ContentsFirst(c.accepted, c.received);
  }

  lemma AheadSendable(codec: Codec, c: Conn)
    requires Sound(codec) && Aligned(codec, c)
    ensures Sendable(Contents(c.accepted[c.received..]))
  {
    AlignedSendable(codec, c);
    forall i | 0 <= i < |Contents(c.accepted[c.received..])|
      ensures Contents(c.accepted[c.received..])[i] == Contents(c.accepted)[c.received + i]
    {
    }
  }

  lemma ContentsFirst(entries: seq<Entry>, k: nat)
    requires k < |entries|
    ensures Contents(entries[k..])[0] == entries[k].content
    ensures Contents(entries[k..])[1..] == Contents(entries[k + 1..])
  {
  }

  lemma OfferKeepsAligned(codec: Codec, c: Conn, open: bool)
    requires Sound(codec) && Aligned(codec, c) && HasFrame(c)
    ensures Aligned(codec, AfterOffer(c, open))
  {
    FrameIsNext(codec, c);
    StreamSplits(c.accepted, c.received + 1);
    NothingInFront(c.socket, c.remaining);
  }

  lemma NothingInFront(a: seq<Byte>, b: seq<Byte>)
    ensures [] + a + b == a + b
  {
    assert [] + a == a;
  }

  // ---- order within one connection ----

  function ItemsOf(entries: seq<Entry>): seq<Item> {
    seq(|entries|, i requires 0 <= i < |entries| => entries[i].item)
  }

  function OfThread(thread: nat): Entry -> bool {
    (e: Entry) => e.thread == thread
  }

  /** What a thread has reported up to the item it is waiting with. */
  function Tried(c: Conn, thread: nat): seq<Item> {
    var reported := ReportedBy(c, thread);
    if thread in c.waiting && reported != [] then Init(reported) else reported
  }

  /** A thread's accepted items are among those it has tried to send, in order. */
  ghost predicate InReportOrder(c: Conn) {
    && (forall t :: t in c.waiting ==> ReportedBy(c, t) != [] && Last(ReportedBy(c, t)) == c.waiting[t])
    && forall t: nat :: IsSubsequence(ItemsOf(Filter(OfThread(t), c.accepted)), Tried(c, t))
  }

  lemma StepKeepsReportOrder(codec: Codec, c: Conn, step: ConnStep)
    requires InReportOrder(c) && CanStep(c, step)
    ensures InReportOrder(Stepped(codec, c, step))
  {
    var d := Stepped(codec, c, step);
    forall t | t in d.waiting
      ensures ReportedBy(d, t) != [] && Last(ReportedBy(d, t)) == d.waiting[t]
    {
      assert step.Report? || t in c.waiting;
    }
    forall t: nat
      ensures IsSubsequence(ItemsOf(Filter(OfThread(t), d.accepted)), Tried(d, t))
    {
      assert IsSubsequence(ItemsOf(Filter(OfThread(t), c.accepted)), Tried(c, t));
      if step.Acquire? {
        AcquireKeepsReportOrder(codec, c, step.thread, t);
      } else {
        TriedStays(codec, c, step, t);
      }
    }
  }

  lemma LastReported(reported: seq<Item>, item: Item)
    ensures Init(reported + [item]) == reported
  {
  }

  lemma TriedStays(codec: Codec, c: Conn, step: ConnStep, t: nat)
    requires CanStep(c, step) && !step.Acquire? && (t in c.waiting ==> ReportedBy(c, t) != [])
    ensures var d := Stepped(codec, c, step); Tried(d, t) == Tried(c, t) && d.accepted == c.accepted
  {
    if step.Report? {
      ReportStays(c, step.thread, step.item, t);
    }
  }

  lemma ReportStays(c: Conn, thread: nat, item: Item, t: nat)
    requires thread !in c.waiting && (t in c.waiting ==> ReportedBy(c, t) != [])
    ensures var reported := c.reported[thread := ReportedBy(c, thread) + [item]];
            Tried(c.(reported := reported, waiting := c.waiting[thread := item]), t) == Tried(c, t)
  {
    if thread == t {
      LastReported(ReportedBy(c, t), item);
    }
  }

  lemma AcquireKeepsReportOrder(codec: Codec, c: Conn, thread: nat, t: nat)
    requires InReportOrder(c) && CanStep(c, Acquire(thread))
    ensures var d := Stepped(codec, c, Acquire(thread));
            IsSubsequence(ItemsOf(Filter(OfThread(t), d.accepted)), Tried(d, t))
  {
    var d := Stepped(codec, c, Acquire(thread));
    var was, item := Filter(OfThread(t), c.accepted), c.waiting[thread];
    assert IsSubsequence(ItemsOf(was), Tried(c, t));
    if t == thread {
      assert Tried(d, t) == Tried(c, t) + [item];
    } else {
      assert Tried(d, t) == Tried(c, t);
    }
    if d.holder.Some? {
      var entry := Last(d.accepted);
      FilterSnoc(OfThread(t), c.accepted, entry);
      if t == thread {
        assert ItemsOf(was + [entry]) == ItemsOf(was) + [item];
        SubsequenceKeep(ItemsOf(was), Tried(c, t), item);
      } else {
        assert was + [] == was;
      }
    } else if t == thread {
      SubsequenceSkip(ItemsOf(was), Tried(c, t), item);
    }
  }

  // ---- the whole pipeline ----

  /** Where an item comes from: a connection, or the worker's heartbeat. */
  datatype Source = FromConn(conn: nat) | Heartbeat

  /** An item that has been offered to the queue. The entry of a heartbeat item has
      thread 0 and no content. */
  datatype Tagged = Tagged(source: Source, entry: Entry)

  /** `passed` lists all that ever got into the queue. */
  datatype State = State(conns: map<nat, Conn>, beats: seq<Item>, open: bool,
                         queue: seq<Tagged>, consumed: seq<Tagged>, discarded: seq<Tagged>, passed: seq<Tagged>)

  const INITIAL := State(map[], [], true, [], [], [], [])

  function ConnOf(s: State, id: nat): Conn {
    if id in s.conns then s.conns[id] else FRESH
  }

  datatype Step =
    | OnConn(conn: nat, step: ConnStep)
    /** The task of a connection offers what it has received. */
    | Offer(conn: nat)
    | Beat(item: Item)
    | Consume
    /** The consumer is gone, and with it what is queued. */
    | CloseQueue

  predicate Enabled(s: State, step: Step) {
    match step
    case OnConn(id, sub) => CanStep(ConnOf(s, id), sub)
    case Offer(id) => HasFrame(ConnOf(s, id))
    case Beat(_) => true
    case Consume => s.queue != []
    case CloseQueue => s.open
  }

  /** `try_send`: an item is refused when the queue is full, or closed. */
  function TrySend(s: State, x: Tagged): State {
    if !s.open then s
    else if |s.queue| < CAPACITY then s.(queue := s.queue + [x], passed := s.passed + [x])
    else s.(discarded := s.discarded + [x])
  }

  /** The item as received, with a note of which accepted item it should be. */
  function EntryOf(c: Conn, item: Item): Entry {
    if c.received < |c.accepted| then c.accepted[c.received].(item := item) else Entry(0, item, [])
  }

  function Next(codec: Codec, s: State, step: Step): State
    requires Enabled(s, step)
  {
    match step
    case OnConn(id, sub) => s.(conns := s.conns[id := Stepped(codec, ConnOf(s, id), sub)])
    case Offer(id) =>
      var c := ConnOf(s, id);
      (match Offered(codec, c)
       case None => s.(conns := s.conns[id := AfterOffer(c, true)])
       case Some(item) => TrySend(s.(conns := s.conns[id := AfterOffer(c, s.open)]),
                                  Tagged(FromConn(id), EntryOf(c, item))))
    case Beat(item) => TrySend(s.(beats := s.beats + [item]), Tagged(Heartbeat, Entry(0, item, [])))
    case Consume => s.(queue := s.queue[1..], consumed := s.consumed + [s.queue[0]])
    case CloseQueue => s.(open := false, queue := [])
  }

  ghost predicate IsRun(codec: Codec, steps: seq<Step>)
    decreases |steps|, 0
  {
    steps == [] || (IsRun(codec, Init(steps)) && Enabled(Final(codec, Init(steps)), Last(steps)))
  }

  ghost function Final(codec: Codec, steps: seq<Step>): State
    requires IsRun(codec, steps)
    decreases |steps|, 1
  {
    if steps == [] then INITIAL else Next(codec, Final(codec, Init(steps)), Last(steps))
  }

  function From(source: Source): Tagged -> bool {
    (x: Tagged) => x.source == source
  }

  function Entries(xs: seq<Tagged>): seq<Entry> {
    seq(|xs|, i requires 0 <= i < |xs| => xs[i].entry)
  }

  /** One connection within the whole. */
  ghost predicate ConnInv(codec: Codec, s: State, id: nat) {
    Aligned(codec, ConnOf(s, id)) && InReportOrder(ConnOf(s, id)) && PassedOn(s, id)
  }

  /** What is in the queue or beyond it came out of the connection, in order. */
  ghost predicate PassedOn(s: State, id: nat) {
    var c := ConnOf(s, id);
    && c.received <= |c.accepted|
    && IsSubsequence(Entries(Filter(From(FromConn(id)), s.passed)), c.accepted[..c.received])
    && (s.open ==> c.received == |Filter(From(FromConn(id)), s.passed)| + |Filter(From(FromConn(id)), s.discarded)|)
  }

  ghost predicate QueueInv(s: State) {
    && |s.queue| <= CAPACITY
    && s.consumed <= s.passed
    && (if s.open then s.passed == s.consumed + s.queue else s.queue == [])
    && IsSubsequence(ItemsOf(Entries(Filter(From(Heartbeat), s.passed))), s.beats)
    && (s.open ==> |s.beats| == |Filter(From(Heartbeat), s.passed)| + |Filter(From(Heartbeat), s.discarded)|)
  }

  /** A source's passed and discarded items after a send that found the queue open. */
  lemma TrySendFrom(s: State, x: Tagged, source: Source)
    ensures var t := TrySend(s, x);
            var mine := if source == x.source then [x] else [];
            && (s.open && |s.queue| < CAPACITY ==>
                Filter(From(source), t.passed) == Filter(From(source), s.passed) + mine && t.discarded == s.discarded)
            && (s.open && |s.queue| >= CAPACITY ==>
                Filter(From(source), t.discarded) == Filter(From(source), s.discarded) + mine && t.passed == s.passed)
            && (!s.open ==> t == s)
  {
    FilterSnoc(From(source), s.passed, x);
    FilterSnoc(From(source), s.discarded, x);
  }

  lemma TrySendKeepsQueue(s: State, x: Tagged)
    requires |s.queue| <= CAPACITY && s.consumed <= s.passed && (s.open ==> s.passed == s.consumed + s.queue)
    ensures var t := TrySend(s, x);
            |t.queue| <= CAPACITY && t.consumed <= t.passed && (t.open ==> t.passed == t.consumed + t.queue)
  {
    assert s.open ==> s.passed + [x] == s.consumed + (s.queue + [x]);
  }

  lemma BeatKeepsQueueInv(s: State, item: Item)
    requires QueueInv(s)
    ensures QueueInv(Next(NO_CODEC, s, Beat(item)))
  {
    var u := s.(beats := s.beats + [item]);
    var x := Tagged(Heartbeat, Entry(0, item, []));
    var was := Entries(Filter(From(Heartbeat), s.passed));
    TrySendKeepsQueue(u, x);
    TrySendFrom(u, x, Heartbeat);
    assert Entries(Filter(From(Heartbeat), s.passed) + [x]) == was + [x.entry];
    assert ItemsOf(was + [x.entry]) == ItemsOf(was) + [item];
    SubsequenceKeep(ItemsOf(was), s.beats, item);
    SubsequenceSkip(ItemsOf(was), s.beats, item);
  }

  lemma SendKeepsQueueInv(s: State, x: Tagged)
    requires QueueInv(s) && x.source != Heartbeat
    ensures QueueInv(TrySend(s, x))
  {
    TrySendKeepsQueue(s, x);
    TrySendFrom(s, x, Heartbeat);
    assert Filter(From(Heartbeat), s.passed) + [] == Filter(From(Heartbeat), s.passed);
    assert Filter(From(Heartbeat), s.discarded) + [] == Filter(From(Heartbeat), s.discarded);
  }

  lemma OthersKeepQueueInv(codec: Codec, s: State, step: Step)
    requires QueueInv(s) && Enabled(s, step) && !step.Beat?
    ensures QueueInv(Next(codec, s, step))
  {
    match step
    case OnConn(_, _) =>
    case Offer(id) =>
      var c := ConnOf(s, id);
      if Offered(codec, c).Some? {
        SendKeepsQueueInv(s.(conns := s.conns[id := AfterOffer(c, s.open)]),
                          Tagged(FromConn(id), EntryOf(c, Offered(codec, c).value)));
      }
    case Consume =>
      assert s.queue == [s.queue[0]] + s.queue[1..];
      if s.open {
        assert s.consumed + s.queue == (s.consumed + [s.queue[0]]) + s.queue[1..];
      }
    case CloseQueue =>
  }

  /** Moves that are none of a connection's leave it alone. */
  lemma ConnInvStays(codec: Codec, s: State, t: State, id: nat)
    requires ConnInv(codec, s, id) && ConnOf(t, id) == ConnOf(s, id) && (t.open ==> s.open)
    requires Filter(From(FromConn(id)), t.passed) == Filter(From(FromConn(id)), s.passed)
    requires Filter(From(FromConn(id)), t.discarded) == Filter(From(FromConn(id)), s.discarded)
    ensures ConnInv(codec, t, id)
  {
  }

  /** A step of the connection itself. */
  lemma OnConnKeepsConnInv(codec: Codec, s: State, id: nat, sub: ConnStep)
    requires ConnInv(codec, s, id) && Enabled(s, OnConn(id, sub))
    ensures ConnInv(codec, Next(codec, s, OnConn(id, sub)), id)
  {
    var c := ConnOf(s, id);
    StepKeepsAligned(codec, c, sub);
    StepKeepsReportOrder(codec, c, sub);
    var d := Stepped(codec, c, sub);
    assert c.accepted <= d.accepted && d.received == c.received;
    assert d.accepted[..d.received] == c.accepted[..c.received];
  }

  lemma OneMore(was: seq<Tagged>, x: Tagged, accepted: seq<Entry>, k: nat)
    requires k < |accepted| && x.entry == accepted[k] && IsSubsequence(Entries(was), accepted[..k])
    ensures IsSubsequence(Entries(was + [x]), accepted[..k + 1]) && IsSubsequence(Entries(was), accepted[..k + 1])
  {
    assert Entries(was + [x]) == Entries(was) + [x.entry];
    assert accepted[..k + 1] == accepted[..k] + [x.entry];
    SubsequenceKeep(Entries(was), accepted[..k], x.entry);
    SubsequenceSkip(Entries(was), accepted[..k], x.entry);
  }

  lemma OfferKeepsReportOrder(c: Conn, open: bool)
    requires InReportOrder(c)
    ensures InReportOrder(AfterOffer(c, open))
  {
    assert forall thread: nat :: Tried(AfterOffer(c, open), thread) == Tried(c, thread);
  }

  /** The task's offer: what it has received and tagged is the next accepted item. */
  lemma OfferKeepsConnInv(codec: Codec, s: State, id: nat)
    requires Sound(codec) && ConnInv(codec, s, id) && Enabled(s, Offer(id))
    ensures ConnInv(codec, Next(codec, s, Offer(id)), id)
  {
    var c := ConnOf(s, id);
    FrameIsNext(codec, c);
    OfferKeepsAligned(codec, c, s.open);
    OfferKeepsReportOrder(c, s.open);
    var x := Tagged(FromConn(id), c.accepted[c.received]);
    assert Next(codec, s, Offer(id)) == TrySend(s.(conns := s.conns[id := AfterOffer(c, s.open)]), x);
    SendPassesOn(s, id, x);
  }

  lemma SendPassesOn(s: State, id: nat, x: Tagged)
    requires PassedOn(s, id)
    requires var c := ConnOf(s, id); c.received < |c.accepted| && x == Tagged(FromConn(id), c.accepted[c.received])
    ensures var c := ConnOf(s, id);
            var t := TrySend(s.(conns := s.conns[id := AfterOffer(c, s.open)]), x);
            ConnOf(t, id) == AfterOffer(c, s.open) && PassedOn(t, id)
  {
    var c := ConnOf(s, id);
    TrySendFrom(s.(conns := s.conns[id := AfterOffer(c, s.open)]), x, FromConn(id));
    OneMore(Filter(From(FromConn(id)), s.passed), x, c.accepted, c.received);
  }

  lemma StepKeepsConnInv(codec: Codec, s: State, step: Step, id: nat)
    requires Sound(codec) && ConnInv(codec, s, id) && Enabled(s, step)
    ensures ConnInv(codec, Next(codec, s, step), id)
  {
    var t := Next(codec, s, step);
    var mine := From(FromConn(id));
    assert Filter(mine, s.passed) + [] == Filter(mine, s.passed)
           && Filter(mine, s.discarded) + [] == Filter(mine, s.discarded);
    match step
    case OnConn(other, sub) =>
      if other == id { OnConnKeepsConnInv(codec, s, id, sub); } else { ConnInvStays(codec, s, t, id); }
    case Offer(other) =>
      if other == id {
        OfferKeepsConnInv(codec, s, id);
      } else {
        var c := ConnOf(s, other);
        if Offered(codec, c).Some? {
          TrySendFrom(s.(conns := s.conns[other := AfterOffer(c, s.open)]),
                      Tagged(FromConn(other), EntryOf(c, Offered(codec, c).value)), FromConn(id));
        }
        ConnInvStays(codec, s, t, id);
      }
    case Beat(item) =>
      TrySendFrom(s.(beats := s.beats + [item]), Tagged(Heartbeat, Entry(0, item, [])), FromConn(id));
      ConnInvStays(codec, s, t, id);
    case Consume => ConnInvStays(codec, s, t, id);
    case CloseQueue => ConnInvStays(codec, s, t, id);
  }

  lemma {:induction false} RunsKeepConnInv(codec: Codec, steps: seq<Step>, id: nat)
    requires Sound(codec) && IsRun(codec, steps)
    ensures ConnInv(codec, Final(codec, steps), id)
  {
    if steps == [] {
      assert Filter(From(FromConn(id)), INITIAL.passed) == [];
      assert forall t: nat :: Filter(OfThread(t), FRESH.accepted) == [];
    } else {
      RunsKeepConnInv(codec, Init(steps), id);
      StepKeepsConnInv(codec, Final(codec, Init(steps)), Last(steps), id);
    }
  }

  lemma {:induction false} RunsKeepQueueInv(codec: Codec, steps: seq<Step>)
    requires IsRun(codec, steps)
    ensures QueueInv(Final(codec, steps))
  {
    if steps != [] {
      RunsKeepQueueInv(codec, Init(steps));
      var s := Final(codec, Init(steps));
      if Last(steps).Beat? {
        BeatKeepsQueueInv(s, Last(steps).item);
      } else {
        OthersKeepQueueInv(codec, s, Last(steps));
      }
    }
  }

  // ---- the results ----

  /** Nothing is lost between writing and offering: a task that has no whole frame
      at hand, with nothing left to read or to write, has received every accepted
      item and is at a frame boundary. */
  lemma NothingIsLostInTransit(codec: Codec, steps: seq<Step>, id: nat)
    requires Sound(codec) && IsRun(codec, steps)
    requires var c := ConnOf(Final(codec, steps), id);
             !c.reader.Gone? && !HasFrame(c) && c.socket == [] && c.remaining == []
    ensures var c := ConnOf(Final(codec, steps), id);
            c.received == |c.accepted| && c.reader == Header([])
  {
    RunsKeepConnInv(codec, steps, id);
    var c := ConnOf(Final(codec, steps), id);
    AlignedSendable(codec, c);
    AheadIs(codec, c);
    var ahead := Contents(c.accepted[c.received..]);
    var partial := Partial(c.reader);
    assert partial + c.socket + c.remaining == partial;
    if ahead != [] {
      StreamFirst(ahead);
      assert |partial| >= SIZE_BYTES;
      assert c.reader.header == partial[..SIZE_BYTES] == ToLe(|ahead[0]|, SIZE_BYTES);
      LengthReadsBack(|ahead[0]|, SIZE_BYTES);
      assert false;
    }
  }

  /** The items of one thread of one connection among what has been consumed. */
  function ConsumedOf(s: State, id: nat, thread: nat): seq<Item> {
    ItemsOf(Filter(OfThread(thread), Entries(Filter(From(FromConn(id)), s.consumed))))
  }

  lemma {:induction false} ItemsOfSubsequence(a: seq<Entry>, b: seq<Entry>)
    requires IsSubsequence(a, b)
    ensures IsSubsequence(ItemsOf(a), ItemsOf(b))
    decreases |b|
  {
    if a != [] {
      assert ItemsOf(Init(b)) == Init(ItemsOf(b)) && ItemsOf(Init(a)) == Init(ItemsOf(a));
      if IsSubsequence(a, Init(b)) {
        ItemsOfSubsequence(a, Init(b));
      } else {
        ItemsOfSubsequence(Init(a), Init(b));
      }
    }
  }

  /** End to end the pipeline is a lossy FIFO for each thread of each process: what
      the consumer gets of a thread's items is some of them, in the order and the
      multiplicity it reported them in; nothing is made up, torn or swapped. */
  lemma ConsumedInReportOrder(codec: Codec, steps: seq<Step>, id: nat, thread: nat)
    requires Sound(codec) && IsRun(codec, steps)
    ensures var s := Final(codec, steps);
            IsSubsequence(ConsumedOf(s, id, thread), ReportedBy(ConnOf(s, id), thread))
  {
    RunsKeepConnInv(codec, steps, id);
    RunsKeepQueueInv(codec, steps);
    var s := Final(codec, steps);
    var c := ConnOf(s, id);
    var consumed := Entries(Filter(From(FromConn(id)), s.consumed));
    var passed := Entries(Filter(From(FromConn(id)), s.passed));
    FilterPrefix(From(FromConn(id)), s.consumed, s.passed);
    assert consumed <= passed;
    PrefixIsSubsequence(consumed, passed);
    PrefixIsSubsequence(c.accepted[..c.received], c.accepted);
    SubsequenceTransitive(consumed, passed, c.accepted[..c.received]);
    SubsequenceTransitive(consumed, c.accepted[..c.received], c.accepted);
    SubsequenceFilter(OfThread(thread), consumed, c.accepted);
    var mine := Filter(OfThread(thread), c.accepted);
    ItemsOfSubsequence(Filter(OfThread(thread), consumed), mine);
    assert IsSubsequence(ItemsOf(mine), Tried(c, thread));
    PrefixIsSubsequence(Tried(c, thread), ReportedBy(c, thread));
    SubsequenceTransitive(ConsumedOf(s, id, thread), ItemsOf(mine), Tried(c, thread));
    SubsequenceTransitive(ConsumedOf(s, id, thread), Tried(c, thread), ReportedBy(c, thread));
  }

  /** And so it is for the heartbeat. */
  lemma BeatsInOrder(codec: Codec, steps: seq<Step>)
    requires IsRun(codec, steps)
    ensures var s := Final(codec, steps);
            IsSubsequence(ItemsOf(Entries(Filter(From(Heartbeat), s.consumed))), s.beats)
  {
    RunsKeepQueueInv(codec, steps);
    var s := Final(codec, steps);
    FilterPrefix(From(Heartbeat), s.consumed, s.passed);
    var consumed, passed := ItemsOf(Entries(Filter(From(Heartbeat), s.consumed))),
        ItemsOf(Entries(Filter(From(Heartbeat), s.passed)));
    assert consumed <= passed;
    PrefixIsSubsequence(consumed, passed);
    SubsequenceTransitive(consumed, passed, s.beats);
  }

  /** The queue holds 255 items at most; and while it is open every item that came
      in over a connection, or from the heartbeat, is consumed, queued or discarded. */
  lemma QueueIsBoundedAndAccounted(codec: Codec, steps: seq<Step>, id: nat)
    requires Sound(codec) && IsRun(codec, steps)
    ensures var s := Final(codec, steps);
            && |s.queue| <= 255
            && (s.open ==> ConnOf(s, id).received == CountFrom(FromConn(id), s))
            && (s.open ==> |s.beats| == CountFrom(Heartbeat, s))
  {
    RunsKeepConnInv(codec, steps, id);
    RunsKeepQueueInv(codec, steps);
    var s := Final(codec, steps);
    FilterAppend(From(FromConn(id)), s.consumed, s.queue);
    FilterAppend(From(Heartbeat), s.consumed, s.queue);
  }

  function CountFrom(source: Source, s: State): nat {
    |Filter(From(source), s.consumed)| + |Filter(From(source), s.queue)| + |Filter(From(source), s.discarded)|
  }

  /** The n-th step of a run is a send that finds 255 items in an open queue; its
      item becomes the j-th to be discarded, and the queue stays as it is. */
  ghost predicate RefusedAt(codec: Codec, steps: seq<Step>, n: nat, x: Tagged, j: nat)
    requires n < |steps|
  {
    && IsRun(codec, steps[..n]) && IsRun(codec, steps[..n + 1]) && (steps[n].Offer? || steps[n].Beat?)
    && var s, t := Final(codec, steps[..n]), Final(codec, steps[..n + 1]);
       && s.open && |s.queue| == 255 && t.queue == s.queue
       && |s.discarded| == j && t.discarded == s.discarded + [x]
  }

  lemma DiscardStep(codec: Codec, s: State, step: Step)
    requires Enabled(s, step) && |s.queue| <= CAPACITY
    ensures var t := Next(codec, s, step);
            || t.discarded == s.discarded
            || (&& s.open && |s.queue| == CAPACITY && t.queue == s.queue && (step.Offer? || step.Beat?)
                && exists x :: t.discarded == s.discarded + [x])
  {
  }

  /** Every discarded item was refused so at some step of the run. */
  lemma {:induction false} OnlyAFullQueueDiscards(codec: Codec, steps: seq<Step>, j: nat)
    requires IsRun(codec, steps) && j < |Final(codec, steps).discarded|
    ensures exists n :: 0 <= n < |steps| && RefusedAt(codec, steps, n, Final(codec, steps).discarded[j], j)
  {
    var before, x, last := Init(steps), Final(codec, steps).discarded[j], |steps| - 1;
    var s := Final(codec, before);
    assert steps[..last] == before && steps[..last + 1] == steps;
    RunsKeepQueueInv(codec, before);
    DiscardStep(codec, s, Last(steps));
    if j < |s.discarded| {
      OnlyAFullQueueDiscards(codec, before, j);
      var n :| 0 <= n < |before| && RefusedAt(codec, before, n, s.discarded[j], j);
      assert before[..n] == steps[..n] && before[..n + 1] == steps[..n + 1]
             && s.discarded <= Final(codec, steps).discarded;
      assert RefusedAt(codec, steps, n, x, j);
    } else {
      assert RefusedAt(codec, steps, last, x, j);
    }
  }

  // ---- the worker's part, in place ----

  /** An item that came in over a connection, as the worker knows it. */
  function FromTask(id: nat, item: Item): Tagged {
    Tagged(FromConn(id), Entry(0, item, []))
  }

  function SendAll(s: State, id: nat, items: seq<Item>): State
    decreases items
  {
    if items == [] then s else SendAll(TrySend(s, FromTask(id, items[0])), id, items[1..])
  }

  datatype SendResult = Sent | Full | Closed

  /** The bounded queue, with a connection's task on one end of it and the consumer
      on the other. */
  class Queue {
    var open: bool
    var queue: seq<Tagged>
    var consumed: seq<Tagged>
    var discarded: seq<Tagged>
    ghost var passed: seq<Tagged>

    constructor ()
      ensures View() == INITIAL
    {
      open, queue, consumed, discarded, passed := true, [], [], [], [];
    }

    ghost function View(): State
      reads this
    {
      State(map[], [], open, queue, consumed, discarded, passed)
    }

    /** `try_send`, which `TxReporter` and the tasks share. */
    method Offer(x: Tagged) returns (r: SendResult)
      modifies this
      ensures View() == TrySend(old(View()), x)
      ensures r == if !old(open) then Closed else if |old(queue)| < CAPACITY then Sent else Full
    {
      if !open {
        return Closed;
      }
      if |queue| >= CAPACITY {
        discarded := discarded + [x];
        return Full;
      }
      queue, passed := queue + [x], passed + [x];
      return Sent;
    }

    /** `Consumer::try_consume` */
    method TryConsume() returns (r: Option<Item>)
      modifies this
      ensures if old(queue) == [] then r == None && View() == old(View())
              else r == Some(old(queue)[0].entry.item) && View() == Next(NO_CODEC, old(View()), Consume)
    {
      if queue == [] {
        return None;
      }
      r := Some(queue[0].entry.item);
      consumed, queue := consumed + [queue[0]], queue[1..];
    }

    /** The loop of a connection's task: a body it cannot decode it skips; it ends
        with the stream, or when the queue is closed. */
    method Serve(codec: Codec, incoming: Incoming, id: nat)
      requires {this} !! {incoming}
      modifies this, incoming
      ensures View() == SendAll(old(View()), id, Delivered(codec, old(incoming.pending)))
    {
      ghost var outcome := SendAll(View(), id, Delivered(codec, incoming.pending));
      while true
        invariant outcome == SendAll(View(), id, Delivered(codec, incoming.pending))
        decreases |incoming.pending|
      {
        var r := incoming.ChannelReceive(codec);
        if r.Err? {
          if r.error.UnexpectedEof? {
            return;
          }
          continue;
        }
        ghost var rest := Delivered(codec, incoming.pending);
        SendAllGoesOn(View(), id, r.value, rest);
        var sent := Offer(FromTask(id, r.value));
        if sent.Closed? {
          SendAllClosed(View(), id, rest);
          return;
        }
      }
    }
  }

  const NO_CODEC := Codec(_ => None, _ => None)

  lemma SendAllGoesOn(s: State, id: nat, item: Item, rest: seq<Item>)
    ensures SendAll(s, id, [item] + rest) == SendAll(TrySend(s, FromTask(id, item)), id, rest)
  {
    assert ([item] + rest)[1..] == rest;
  }

  lemma {:induction false} SendAllClosed(s: State, id: nat, items: seq<Item>)
    requires !s.open
    ensures SendAll(s, id, items) == s
  {
    if items != [] {
      SendAllClosed(s, id, items[1..]);
    }
  }

  function AllFromTask(id: nat, items: seq<Item>): seq<Tagged> {
    seq(|items|, i requires 0 <= i < |items| => FromTask(id, items[i]))
  }

  /** A task that nothing interrupts gets the first items in, as many as there is
      room for, and has the others discarded. */
  lemma {:induction false} SendAllFills(s: State, id: nat, items: seq<Item>)
    requires s.open && |s.queue| <= CAPACITY
    ensures var t := SendAll(s, id, items);
            var room := CAPACITY - |s.queue|;
            var k := if |items| <= room then |items| else room;
            && t.queue == s.queue + AllFromTask(id, items[..k])
            && t.discarded == s.discarded + AllFromTask(id, items[k..])
            && t.consumed == s.consumed
    decreases items
  {
    if items != [] {
      var room := CAPACITY - |s.queue|;
      SendAllFills(TrySend(s, FromTask(id, items[0])), id, items[1..]);
      if room > 0 {
        var k := if |items| <= room then |items| else room;
        assert items[..k] == [items[0]] + items[1..][..k - 1] && items[k..] == items[1..][k - 1..];
        assert AllFromTask(id, items[..k]) == [FromTask(id, items[0])] + AllFromTask(id, items[1..][..k - 1]);
      } else {
        assert items == [items[0]] + items[1..] && items[0..] == items && items[1..][0..] == items[1..];
        assert AllFromTask(id, items) == [FromTask(id, items[0])] + AllFromTask(id, items[1..]);
      }
    }
  }
}
