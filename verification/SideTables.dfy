/** The two maps PDO and Redis keep per object handle, and the destructor that is
    written into a handler table all objects of a class share. Handles are used
    again once an object is gone. */
module SideTables {
  import opened Common

  /** What a slot of a handler table, or a saved one, points to. */
  datatype Destructor = Null | Original | Agent

  /** An object of the engine; no two objects ever have the same serial. */
  datatype Obj = Obj(serial: nat, cls: nat)

  /** `values` is DSN_MAP or PEER_MAP, `saved` is DTOR_MAP or FREE_MAP, and
      `table` the slot of each class in its handler table; `ran` lists the objects
      whose original destructor has run. */
  datatype Tables<V> = Tables(values: map<nat, V>, saved: map<nat, Destructor>, table: map<nat, Destructor>,
                              ran: seq<Obj>)

  function SlotOf<V>(t: Tables<V>, cls: nat): Destructor {
    if cls in t.table then t.table[cls] else Original
  }

  /** `hack_dtor`, `hack_free`: note that the slot may hold the agent already. */
  function Hacked<V>(t: Tables<V>, handle: nat, cls: nat): Tables<V> {
    t.(saved := t.saved[handle := SlotOf(t, cls)], table := t.table[cls := Agent])
  }

  /** Whether calling destructor d on an object gets to the original one. */
  predicate ReachesOriginal(d: Destructor, saved: map<nat, Destructor>, handle: nat) {
    d.Original? || (d.Agent? && handle in saved && saved[handle].Original?)
  }

  /** After calling d: the agent's destructor forgets the handle altogether, and
      the original has run once or not at all. */
  function Called<V>(t: Tables<V>, d: Destructor, handle: nat, obj: Obj): Tables<V> {
    t.(values := if d.Agent? then t.values - {handle} else t.values,
       saved := if d.Agent? then t.saved - {handle} else t.saved,
       ran := t.ran + if ReachesOriginal(d, t.saved, handle) then [obj] else [])
  }

  class SideMaps<V> {
    var values: map<nat, V>
    var saved: map<nat, Destructor>
    var table: map<nat, Destructor>
    var ran: seq<Obj>

    constructor ()
      ensures View() == Tables(map[], map[], map[], [])
    {
      values, saved, table, ran := map[], map[], map[], [];
    }

    ghost function View(): Tables<V>
      reads this
    {
      Tables(values, saved, table, ran)
    }

    method Hack(handle: nat, cls: nat)
      modifies this
      ensures View() == Hacked(old(View()), handle, cls)
    {
      var original := if cls in table then table[cls] else Original;
      saved := saved[handle := original];
      table := table[cls := Agent];
    }

    /** Calling through a slot. The agent's destructor calls what it saved, which
        may be itself; every re-entry finds one saved entry less. */
    method Call(d: Destructor, handle: nat, obj: Obj)
      modifies this
      ensures table == old(table)
      ensures values == if d.Agent? then old(values) - {handle} else old(values)
      ensures saved == if d.Agent? then old(saved) - {handle} else old(saved)
      ensures ran == old(ran) + if ReachesOriginal(d, old(saved), handle) then [obj] else []
      decreases |saved|
    {
      match d
      case Null =>
      case Original =>
        ran := ran + [obj];
      case Agent =>
        values := values - {handle};
        if handle in saved {
          var next := saved[handle];
          saved := saved - {handle};
          OneLess(old(saved), handle);
          Call(next, handle, obj);
        }
        GoneAlready(old(values), handle);
        GoneAlready(old(saved), handle);
    }

    /** The engine destroys an object through the slot of its class. */
    method Destroy(handle: nat, obj: Obj)
      modifies this
      ensures View() == Called(old(View()), SlotOf(old(View()), obj.cls), handle, obj)
    {
      Call(if obj.cls in table then table[obj.cls] else Original, handle, obj);
    }

    /** The tables' part of the before hook of PDO's constructor. Without arguments it
        does nothing. The value is None when the DSN does not parse or the span cannot
        be created. */
    method PdoConstruct(handle: nat, cls: nat, arguments: nat, dsn: Option<V>)
      modifies this
      ensures View() == if arguments >= 1 then Constructed(old(View()), handle, cls, dsn) else old(View())
    {
      if arguments < 1 {
        return;
      }
      Hack(handle, cls);
      if dsn.Some? {
        values := values[handle := dsn.value];
      }
    }

    /** `after_hook_when_pdo_statement` */
    method PdoStatement(connection: nat, statement: nat, cls: nat) returns (ok: bool)
      modifies this
      ensures ok <==> connection in old(values)
      ensures View() == Produced(old(View()), connection, statement, cls)
    {
      if connection !in values {
        return false;
      }
      var dsn := values[connection];
      values := values[statement := dsn];
      Hack(statement, cls);
      return true;
    }

    /** The tables' part of `connect` of Redis, which does not touch the slot. The
        peer is None when the agent skips the call: with fewer than two arguments,
        a host that is no readable string, or a port that is neither a number nor
        a string. */
    method RedisConnect(handle: nat, peer: Option<V>)
      modifies `values
      ensures View() == Connected(old(View()), handle, peer)
    {
      if peer.None? {
        return;
      }
      values := values[handle := peer.value];
    }
  }

  /** Without the entry of a handle there is one entry less, and the agent's
      destructor gets to the original exactly if the entry does. */
  lemma OneLess(m: map<nat, Destructor>, k: nat)
    requires k in m
    ensures |m - {k}| < |m|
    ensures ReachesOriginal(Agent, m, k) == ReachesOriginal(m[k], m - {k}, k)
  {
    assert (m - {k}).Keys == m.Keys - {k};
  }

  lemma GoneAlready<T>(m: map<nat, T>, k: nat)
    ensures m - {k} - {k} == m - {k} && (k !in m ==> m - {k} == m)
  {
  }

  function Constructed<V>(t: Tables<V>, handle: nat, cls: nat, value: Option<V>): Tables<V> {
    var h := Hacked(t, handle, cls);
    match value
    case None => h
    case Some(v) => h.(values := h.values[handle := v])
  }

  function Produced<V>(t: Tables<V>, parent: nat, child: nat, cls: nat): Tables<V> {
    if parent !in t.values then t
    else Hacked(t.(values := t.values[child := t.values[parent]]), child, cls)
  }

  function Connected<V>(t: Tables<V>, handle: nat, peer: Option<V>): Tables<V> {
    match peer
    case None => t
    case Some(p) => t.(values := t.values[handle := p])
  }

  // ---- runs of the engine with handle reuse ----

  datatype Move<V> =
    | New(handle: nat, cls: nat)
    /** With an argument at least; without one nothing happens. */
    | PdoConstruct(handle: nat, dsn: Option<V>)
    | PdoStatement(connection: nat, statement: nat)
    | RedisConstruct(handle: nat)
    /** It connects anew even if the agent cannot tell to what. */
    | RedisConnect(handle: nat, peer: Option<V>)
    | Destroy(handle: nat)
    /** The object goes without its destructor being called, as when its
        constructor has thrown. */
    | Vanish(handle: nat)

  datatype State<V> = State(tables: Tables<V>, live: map<nat, Obj>, born: nat)

  ghost predicate Enabled<V>(s: State<V>, m: Move<V>) {
    match m
    case New(handle, _) => handle !in s.live
    case PdoStatement(connection, statement) => connection in s.live && statement in s.live
    case _ => m.handle in s.live
  }

  ghost function Next<V>(s: State<V>, m: Move<V>): State<V>
    requires Enabled(s, m)
  {
    match m
    case New(handle, cls) => s.(live := s.live[handle := Obj(s.born, cls)], born := s.born + 1)
    case PdoConstruct(handle, dsn) => s.(tables := Constructed(s.tables, handle, s.live[handle].cls, dsn))
    case PdoStatement(connection, statement) =>
      s.(tables := Produced(s.tables, connection, statement, s.live[statement].cls))
    case RedisConstruct(handle) => s.(tables := Hacked(s.tables, handle, s.live[handle].cls))
    case RedisConnect(handle, peer) => s.(tables := Connected(s.tables, handle, peer))
    case Destroy(handle) =>
      s.(tables := Called(s.tables, SlotOf(s.tables, s.live[handle].cls), handle, s.live[handle]),
         live := s.live - {handle})
    case Vanish(handle) => s.(live := s.live - {handle})
  }

  ghost predicate IsRun<V>(moves: seq<Move<V>>)
    decreases |moves|, 0
  {
    moves == [] || (IsRun(Init(moves)) && Enabled(Final(Init(moves)), Last(moves)))
  }

  ghost function Final<V>(moves: seq<Move<V>>): State<V>
    requires IsRun(moves)
    decreases |moves|, 1
  {
    if moves == [] then State(Tables(map[], map[], map[], []), map[], 0) else Next(Final(Init(moves)), Last(moves))
  }

  // ---- what should be known of an object, told by the history alone ----

  /** The connection data of an object: that of its last successful construction
      or of its last connect, and none if the agent cannot read that; for a
      statement, that of the object that produced it, as it was at that time. */
  ghost function Expected<V>(moves: seq<Move<V>>, serial: nat): Option<V>
    requires IsRun(moves)
    decreases |moves|
  {
    if moves == [] then None
    else
      var live := Final(Init(moves)).live;
      var otherwise := Expected(Init(moves), serial);
      match Last(moves)
      case PdoConstruct(handle, dsn) => if live[handle].serial == serial && dsn.Some? then dsn else otherwise
      case PdoStatement(connection, statement) =>
        var parents := Expected(Init(moves), live[connection].serial);
        if live[statement].serial == serial && parents.Some? then parents else otherwise
      case RedisConnect(handle, peer) => if live[handle].serial == serial then peer else otherwise
      case _ => otherwise
  }

  /** A handle has a value exactly when the object that bears it now should have
      one, and it is that object's own value. */
  ghost predicate Coherent<V>(moves: seq<Move<V>>)
    requires IsRun(moves)
  {
    var s := Final(moves);
    && (forall h :: h in s.tables.values ==>
          h in s.live && Expected(moves, s.live[h].serial) == Some(s.tables.values[h]))
    && (forall h :: h in s.live && Expected(moves, s.live[h].serial).Some? ==> h in s.tables.values)
  }

  ghost predicate Serials<V>(s: State<V>) {
    SerialsOf(s.live, s.born)
  }

  ghost predicate SerialsOf(live: map<nat, Obj>, born: nat) {
    && (forall h :: h in live ==> live[h].serial < born)
    && (forall h, h' :: (h in live && h' in live && live[h].serial == live[h'].serial) ==> h == h')
  }

  lemma {:induction false} SerialsAreUnique<V>(moves: seq<Move<V>>)
    requires IsRun(moves)
    ensures Serials(Final(moves))
  {
    if moves != [] {
      SerialsAreUnique(Init(moves));
    }
  }

  lemma {:induction false} NothingExpectedOfTheUnborn<V>(moves: seq<Move<V>>, serial: nat)
    requires IsRun(moves) && serial >= Final(moves).born
    ensures Expected(moves, serial) == None
  {
    if moves != [] {
      SerialsAreUnique(Init(moves));
      NothingExpectedOfTheUnborn(Init(moves), serial);
    }
  }

  /** The move does not pass the agent by: a handle that goes has no value, or goes
      through the agent's destructor; and a connect the agent skips is one of a
      handle without a value. */
  ghost predicate Tidy<V>(s: State<V>, m: Move<V>)
    requires Enabled(s, m)
  {
    && (m.Vanish? ==> m.handle !in s.tables.values)
    && (m.RedisConnect? && m.peer.None? ==> m.handle !in s.tables.values)
    && (m.Destroy? && m.handle in s.tables.values ==> SlotOf(s.tables, s.live[m.handle].cls).Agent?)
  }

  /** One more move keeps the tables coherent exactly when it is tidy. */
  lemma {:induction false} CoherentExactly<V>(moves: seq<Move<V>>)
    requires moves != [] && IsRun(moves) && Coherent(Init(moves))
    ensures Coherent(moves) <==> Tidy(Final(Init(moves)), Last(moves))
  {
    SerialsAreUnique(Init(moves));
    match Last(moves) {
      case New(_, _) => NothingExpectedOfTheUnborn(Init(moves), Final(Init(moves)).born);
      case PdoConstruct(_, _) => ConstructStaysCoherent(moves);
      case PdoStatement(_, _) => StatementStaysCoherent(moves);
      case RedisConstruct(_) =>
      case RedisConnect(_, _) => ConnectStaysCoherentExactly(moves);
      case Destroy(_) => GoingStaysCoherentExactly(moves);
      case Vanish(_) => GoingStaysCoherentExactly(moves);
    }
  }

  lemma ConstructStaysCoherent<V>(moves: seq<Move<V>>)
    requires moves != [] && IsRun(moves) && Last(moves).PdoConstruct?
    requires Coherent(Init(moves)) && Serials(Final(Init(moves)))
    ensures Coherent(moves)
  {
    var s, t := Final(Init(moves)), Final(moves);
    assert t.live == s.live;
    assert t.tables.values
           == if Last(moves).dsn.Some? then s.tables.values[Last(moves).handle := Last(moves).dsn.value]
               else s.tables.values;
  }

  lemma StatementStaysCoherent<V>(moves: seq<Move<V>>)
    requires moves != [] && IsRun(moves) && Last(moves).PdoStatement?
    requires Coherent(Init(moves)) && Serials(Final(Init(moves)))
    ensures Coherent(moves)
  {
    var s, t, m := Final(Init(moves)), Final(moves), Last(moves);
    assert t.live == s.live;
    assert m.connection in s.tables.values <==> Expected(Init(moves), s.live[m.connection].serial).Some?;
    assert t.tables.values
           == if m.connection in s.tables.values then s.tables.values[m.statement := s.tables.values[m.connection]]
               else s.tables.values;
  }

  lemma ConnectStaysCoherentExactly<V>(moves: seq<Move<V>>)
    requires moves != [] && IsRun(moves) && Last(moves).RedisConnect?
    requires Coherent(Init(moves)) && Serials(Final(Init(moves)))
    ensures Coherent(moves) <==> Tidy(Final(Init(moves)), Last(moves))
  {
    var s, t, m := Final(Init(moves)), Final(moves), Last(moves);
    assert t.live == s.live;
    assert Expected(moves, s.live[m.handle].serial) == m.peer;
    if m.peer.None? {
      assert t.tables == s.tables;
    } else {
      assert t.tables.values == s.tables.values[m.handle := m.peer.value];
    }
  }

  lemma GoingStaysCoherentExactly<V>(moves: seq<Move<V>>)
    requires moves != [] && IsRun(moves) && (Last(moves).Destroy? || Last(moves).Vanish?)
    requires Coherent(Init(moves)) && Serials(Final(Init(moves)))
    ensures Coherent(moves) <==> Tidy(Final(Init(moves)), Last(moves))
  {
    var s, handle := Final(Init(moves)), Last(moves).handle;
    if Tidy(s, Last(moves)) {
      TidyGoing(moves);
    } else {
      assert handle in Final(moves).tables.values && handle !in Final(moves).live;
    }
  }

  lemma TidyGoing<V>(moves: seq<Move<V>>)
    requires moves != [] && IsRun(moves) && (Last(moves).Destroy? || Last(moves).Vanish?)
    requires Coherent(Init(moves)) && Serials(Final(Init(moves))) && Tidy(Final(Init(moves)), Last(moves))
    ensures Coherent(moves)
  {
    var s, t, handle := Final(Init(moves)), Final(moves), Last(moves).handle;
    SameExpectations(moves);
    assert t.live == s.live - {handle} && t.tables.values == s.tables.values - {handle};
  }

  lemma SameExpectations<V>(moves: seq<Move<V>>)
    requires moves != [] && IsRun(moves) && (Last(moves).Destroy? || Last(moves).Vanish?)
    ensures forall serial :: Expected(moves, serial) == Expected(Init(moves), serial)
  {
  }

  ghost predicate AllTidy<V>(moves: seq<Move<V>>)
    requires IsRun(moves)
  {
    moves == [] || (AllTidy(Init(moves)) && Tidy(Final(Init(moves)), Last(moves)))
  }

  lemma {:induction false} TidyRunsAreCoherent<V>(moves: seq<Move<V>>)
    requires IsRun(moves) && AllTidy(moves)
    ensures Coherent(moves)
  {
    if moves != [] {
      TidyRunsAreCoherent(Init(moves));
      CoherentExactly(moves);
    }
  }

  /** The tables are coherent now, and were after every move before. */
  ghost predicate CoherentThroughout<V>(moves: seq<Move<V>>)
    requires IsRun(moves)
  {
    Coherent(moves) && (moves != [] ==> CoherentThroughout(Init(moves)))
  }

  /** A run is coherent throughout exactly when all its moves are tidy. */
  lemma {:induction false} CoherentThroughoutExactly<V>(moves: seq<Move<V>>)
    requires IsRun(moves)
    ensures CoherentThroughout(moves) <==> AllTidy(moves)
  {
    if moves != [] {
      CoherentThroughoutExactly(Init(moves));
      if Coherent(Init(moves)) { CoherentExactly(moves); }
    }
  }

  /** PDO hacks whatever it gives a value to; so with the destructor called for
      every object that goes, its runs are always coherent. */
  ghost predicate IsPdo<V>(moves: seq<Move<V>>) {
    forall i :: 0 <= i < |moves| ==> !moves[i].RedisConstruct? && !moves[i].RedisConnect? && !moves[i].Vanish?
  }

  lemma {:induction false} PdoIsTidy<V>(moves: seq<Move<V>>)
    requires IsRun(moves) && IsPdo(moves)
    ensures AllTidy(moves)
    ensures var s := Final(moves);
            forall h :: h in s.tables.values ==> h in s.live && SlotOf(s.tables, s.live[h].cls).Agent?
  {
    if moves != [] {
      assert forall i :: 0 <= i < |Init(moves)| ==> Init(moves)[i] == moves[i];
      assert Last(moves) == moves[|moves| - 1];
      PdoIsTidy(Init(moves));
    }
  }

  lemma {:induction false} PdoIsCoherent<V>(moves: seq<Move<V>>)
    requires IsRun(moves) && IsPdo(moves)
    ensures Coherent(moves)
  {
    PdoIsTidy(moves);
    TidyRunsAreCoherent(moves);
  }

  /** A connection whose constructor threw leaves its DSN behind; a connection on
      the same handle whose DSN the agent cannot read is then taken for it. */
  lemma StaleDsnAfterVanish<V>(dsn: V)
    ensures var moves := [New(1, 0), PdoConstruct(1, Some(dsn)), Vanish(1), New(1, 0), PdoConstruct(1, None)];
            IsRun(moves) && Final(moves).tables.values[1 := dsn] == Final(moves).tables.values
            && Expected(moves, Final(moves).live[1].serial) == None
  {
    var m0, m1, m2, m3, m4: Move<V> := New(1, 0), PdoConstruct(1, Some(dsn)), Vanish(1), New(1, 0),
        PdoConstruct(1, None);
    Extend([], m0);
    assert [] + [m0] == [m0];
    Extend([m0], m1);
    assert [m0] + [m1] == [m0, m1];
    Extend([m0, m1], m2);
    assert [m0, m1] + [m2] == [m0, m1, m2];
    Extend([m0, m1, m2], m3);
    assert [m0, m1, m2] + [m3] == [m0, m1, m2, m3];
    NothingExpectedOfTheUnborn([m0, m1, m2], 1);
    Extend([m0, m1, m2, m3], m4);
    assert [m0, m1, m2, m3] + [m4] == [m0, m1, m2, m3, m4];
  }

  /** A Redis object that connects again, with a host alone and so to the default
      port, keeps the peer of its earlier connection. */
  lemma StalePeerAfterSkippedConnect<V>(peer: V)
    ensures var moves := [New(1, 0), RedisConnect(1, Some(peer)), RedisConnect(1, None)];
            IsRun(moves) && Final(moves).tables.values == map[1 := peer] && Expected(moves, 0) == None
  {
    var m0, m1, m2: Move<V> := New(1, 0), RedisConnect(1, Some(peer)), RedisConnect(1, None);
    Extend([], m0);
    assert [] + [m0] == [m0];
    Extend([m0], m1);
    assert [m0] + [m1] == [m0, m1];
    Extend([m0, m1], m2);
    assert [m0, m1] + [m2] == [m0, m1, m2];
    assert Last([m0, m1, m2]) == m2 && Init([m0, m1, m2]) == [m0, m1];
  }

  /** A Redis object whose class has not been hacked, as one of a subclass that leaves
      the parent's constructor out, leaves its peer to the next on its handle. */
  lemma StalePeerWithoutHijack<V>(peer: V)
    ensures var moves := [New(1, 0), RedisConnect(1, Some(peer)), Destroy(1), New(1, 0)];
            IsRun(moves) && Final(moves).tables.values == map[1 := peer] && Expected(moves, 1) == None
  {
    var m0, m1, m2, m3: Move<V> := New(1, 0), RedisConnect(1, Some(peer)), Destroy(1), New(1, 0);
    Extend([], m0);
    assert [] + [m0] == [m0];
    Extend([m0], m1);
    assert [m0] + [m1] == [m0, m1];
    Extend([m0, m1], m2);
    assert [m0, m1] + [m2] == [m0, m1, m2];
    Extend([m0, m1, m2], m3);
    assert [m0, m1, m2] + [m3] == [m0, m1, m2, m3];
    assert Init([m0, m1, m2, m3]) == [m0, m1, m2];
    NothingExpectedOfTheUnborn([m0, m1, m2], 1);
  }

  lemma Extend<V>(moves: seq<Move<V>>, m: Move<V>)
    requires IsRun(moves) && Enabled(Final(moves), m)
    ensures IsRun(moves + [m]) && Final(moves + [m]) == Next(Final(moves), m)
    ensures Init(moves + [m]) == moves && Last(moves + [m]) == m
    ensures m.New? || m.Vanish? || (m.PdoConstruct? && m.dsn.None?)
            ==> forall serial :: Expected(moves + [m], serial) == Expected(moves, serial)
  {
    assert Init(moves + [m]) == moves;
  }

  // ---- the original destructor ----

  /** The handle whose object the move hacks, if any. */
  ghost function HandleHacked<V>(s: State<V>, m: Move<V>): Option<nat>
    requires Enabled(s, m)
  {
    match m
    case PdoConstruct(handle, _) => Some(handle)
    case PdoStatement(connection, statement) => if connection in s.tables.values then Some(statement) else None
    case RedisConstruct(handle) => Some(handle)
    case _ => None
  }

  /** The objects that were hacked, in order, with repetitions. */
  ghost function Hacks<V>(moves: seq<Move<V>>): seq<Obj>
    requires IsRun(moves)
  {
    if moves == [] then [] else HacksNext(Final(Init(moves)), Last(moves), Hacks(Init(moves)))
  }

  ghost function HacksNext<V>(s: State<V>, m: Move<V>, hacks: seq<Obj>): seq<Obj>
    requires Enabled(s, m)
  {
    match HandleHacked(s, m)
    case None => hacks
    case Some(handle) => hacks + [s.live[handle]]
  }

  /** The serials of those of one class. */
  function OfClass(hacks: seq<Obj>, cls: nat): seq<nat> {
    if hacks == [] then []
    else OfClass(Init(hacks), cls) + if Last(hacks).cls == cls then [Last(hacks).serial] else []
  }

  ghost function HacksOf<V>(moves: seq<Move<V>>, cls: nat): seq<nat>
    requires IsRun(moves)
  {
    OfClass(Hacks(moves), cls)
  }

  /** For each handle the object last hacked on it, until a destructor call that
      goes through the agent's. The object may have vanished meanwhile. */
  ghost function Pending<V>(moves: seq<Move<V>>): map<nat, Obj>
    requires IsRun(moves)
  {
    if moves == [] then map[]
    else PendingNext(Final(Init(moves)), Last(moves), Hacks(Init(moves)), Pending(Init(moves)))
  }

  ghost function PendingNext<V>(s: State<V>, m: Move<V>, hacks: seq<Obj>, pending: map<nat, Obj>): map<nat, Obj>
    requires Enabled(s, m)
  {
    match HandleHacked(s, m)
    case Some(handle) => pending[handle := s.live[handle]]
    case None => if m.Destroy? && OfClass(hacks, s.live[m.handle].cls) != [] then pending - {m.handle} else pending
  }

  /** The object was the first of its class to be hacked, and just once. */
  ghost predicate FirstAndOnce(hacks: seq<nat>, serial: nat) {
    hacks != [] && hacks[0] == serial && serial !in hacks[1..]
  }

  /** What the last hack of an object found in the slot. */
  ghost function Found(hacks: seq<Obj>, obj: Obj): Destructor {
    if FirstAndOnce(OfClass(hacks, obj.cls), obj.serial) then Original else Agent
  }

  /** Slots and saved destructors, told by the history alone. */
  ghost predicate SavedByHistory<V>(s: State<V>, hacks: seq<Obj>, pending: map<nat, Obj>) {
    SlotsAgree(s.tables, hacks) && SavedAgree(s.tables.saved, hacks, pending) && Victims(s.live, s.born, hacks, pending)
  }

  ghost predicate SlotsAgree<V>(t: Tables<V>, hacks: seq<Obj>) {
    forall cls :: SlotOf(t, cls) == if OfClass(hacks, cls) == [] then Original else Agent
  }

  ghost predicate SavedAgree(saved: map<nat, Destructor>, hacks: seq<Obj>, pending: map<nat, Obj>) {
    saved.Keys == pending.Keys && forall h :: h in pending ==> saved[h] == Found(hacks, pending[h])
  }

  /** Who has been hacked, and is pending on which handle. */
  ghost predicate Victims(live: map<nat, Obj>, born: nat, hacks: seq<Obj>, pending: map<nat, Obj>) {
    && (forall cls, serial :: serial in OfClass(hacks, cls) ==> serial < born)
    && (forall h :: h in pending ==> pending[h].serial in OfClass(hacks, pending[h].cls))
    && (forall h :: h in live && live[h].serial in OfClass(hacks, live[h].cls) ==>
        h in pending && pending[h] == live[h])
    && OnePlaceEach(live, pending)
  }

  /** No object is pending on two handles, or on another than it lives on. */
  ghost predicate OnePlaceEach(live: map<nat, Obj>, pending: map<nat, Obj>) {
    && (forall h, h' :: h in pending && h' in pending && pending[h].serial == pending[h'].serial ==> h == h')
    && (forall h, h' :: h in live && h' in pending && pending[h'].serial == live[h].serial ==>
        h == h' && pending[h] == live[h])
  }

  lemma FirstAndOnceOf(hacks: seq<nat>, serial: nat)
    ensures FirstAndOnce(hacks + [serial], serial) <==> hacks == []
    ensures forall o :: o != serial && hacks != [] ==> (FirstAndOnce(hacks + [serial], o) <==> FirstAndOnce(hacks, o))
  {
    if hacks != [] {
      assert (hacks + [serial])[1..] == hacks[1..] + [serial];
    }
  }

  lemma OneMoreHack(hacks: seq<Obj>, obj: Obj)
    ensures forall cls :: OfClass(hacks + [obj], cls)
                       == if cls == obj.cls then OfClass(hacks, cls) + [obj.serial] else OfClass(hacks, cls)
  {
    assert Init(hacks + [obj]) == hacks;
    assert forall cls :: OfClass(hacks, cls) + [] == OfClass(hacks, cls);
  }

  lemma HackedOnes(hacks: seq<Obj>, obj: Obj)
    ensures forall cls, serial :: serial in OfClass(hacks + [obj], cls)
                             <==> serial in OfClass(hacks, cls) || (cls == obj.cls && serial == obj.serial)
  {
    OneMoreHack(hacks, obj);
  }

  lemma PlacesWith(live: map<nat, Obj>, born: nat, pending: map<nat, Obj>, handle: nat)
    requires OnePlaceEach(live, pending) && SerialsOf(live, born) && handle in live
    ensures OnePlaceEach(live, pending[handle := live[handle]])
  {
  }

  lemma HackVictims(live: map<nat, Obj>, born: nat, hacks: seq<Obj>, pending: map<nat, Obj>, handle: nat)
    requires Victims(live, born, hacks, pending) && SerialsOf(live, born) && handle in live
    ensures Victims(live, born, hacks + [live[handle]], pending[handle := live[handle]])
  {
    HackedOnes(hacks, live[handle]);
    PlacesWith(live, born, pending, handle);
  }

  /** A hack leaves what earlier hacks of other objects found as it was. */
  lemma HackFound(hacks: seq<Obj>, obj: Obj, other: Obj)
    requires other.serial in OfClass(hacks, other.cls) && other.serial != obj.serial
    ensures Found(hacks + [obj], other) == Found(hacks, other)
  {
    OneMoreHack(hacks, obj);
    FirstAndOnceOf(OfClass(hacks, obj.cls), obj.serial);
  }

  lemma HackFinds(hacks: seq<Obj>, obj: Obj)
    ensures Found(hacks + [obj], obj) == if OfClass(hacks, obj.cls) == [] then Original else Agent
  {
    OneMoreHack(hacks, obj);
    FirstAndOnceOf(OfClass(hacks, obj.cls), obj.serial);
  }

  lemma SavedAfter(saved: map<nat, Destructor>, hacks: seq<Obj>, more: seq<Obj>, pending: map<nat, Obj>, handle: nat,
                   obj: Obj)
    requires SavedAgree(saved, hacks, pending)
    requires forall h :: h in pending && h != handle ==> Found(more, pending[h]) == Found(hacks, pending[h])
    ensures SavedAgree(saved[handle := Found(more, obj)], more, pending[handle := obj])
  {
  }

  lemma HackSaved(saved: map<nat, Destructor>, hacks: seq<Obj>, pending: map<nat, Obj>, handle: nat, obj: Obj)
    requires SavedAgree(saved, hacks, pending)
    requires forall h :: h in pending ==> pending[h].serial in OfClass(hacks, pending[h].cls)
    requires forall h :: h in pending && h != handle ==> pending[h].serial != obj.serial
    ensures SavedAgree(saved[handle := Found(hacks + [obj], obj)], hacks + [obj], pending[handle := obj])
  {
    forall h | h in pending && h != handle
      ensures Found(hacks + [obj], pending[h]) == Found(hacks, pending[h])
    {
      HackFound(hacks, obj, pending[h]);
    }
    SavedAfter(saved, hacks, hacks + [obj], pending, handle, obj);
  }

  lemma HackStep<V>(s: State<V>, hacks: seq<Obj>, pending: map<nat, Obj>, handle: nat, values: map<nat, V>)
    requires SavedByHistory(s, hacks, pending) && Serials(s) && handle in s.live
    ensures var t := s.(tables := Hacked(s.tables, handle, s.live[handle].cls).(values := values));
            SavedByHistory(t, hacks + [s.live[handle]], pending[handle := s.live[handle]])
  {
    var obj := s.live[handle];
    var t := s.(tables := Hacked(s.tables, handle, obj.cls).(values := values));
    HackVictims(s.live, s.born, hacks, pending, handle);
    HackSaved(s.tables.saved, hacks, pending, handle, obj);
    HackFinds(hacks, obj);
    assert t.tables.saved == s.tables.saved[handle := Found(hacks + [obj], obj)];
    HackSlots(s.tables, hacks, handle, obj, values);
  }

  lemma HackSlots<V>(t: Tables<V>, hacks: seq<Obj>, handle: nat, obj: Obj, values: map<nat, V>)
    requires SlotsAgree(t, hacks)
    ensures SlotsAgree(Hacked(t, handle, obj.cls).(values := values), hacks + [obj])
  {
    OneMoreHack(hacks, obj);
  }

  lemma PlacesWithout(live: map<nat, Obj>, pending: map<nat, Obj>, handle: nat)
    requires OnePlaceEach(live, pending)
    ensures OnePlaceEach(live - {handle}, pending) && OnePlaceEach(live - {handle}, pending - {handle})
  {
  }

  lemma VictimsWithout(live: map<nat, Obj>, born: nat, hacks: seq<Obj>, pending: map<nat, Obj>, handle: nat)
    requires Victims(live, born, hacks, pending)
    ensures Victims(live - {handle}, born, hacks, pending) && Victims(live - {handle}, born, hacks, pending - {handle})
  {
    PlacesWithout(live, pending, handle);
  }

  lemma SavedWithout(saved: map<nat, Destructor>, hacks: seq<Obj>, pending: map<nat, Obj>, handle: nat)
    requires SavedAgree(saved, hacks, pending)
    ensures SavedAgree(saved - {handle}, hacks, pending - {handle})
  {
    assert (saved - {handle}).Keys == saved.Keys - {handle} && (pending - {handle}).Keys == pending.Keys - {handle};
  }

  lemma DestroyStep<V>(s: State<V>, hacks: seq<Obj>, pending: map<nat, Obj>, handle: nat)
    requires SavedByHistory(s, hacks, pending) && handle in s.live
    ensures SavedByHistory(Next(s, Destroy(handle)), hacks, PendingNext(s, Destroy(handle), hacks, pending))
  {
    var t := Next(s, Destroy(handle));
    assert t.live == s.live - {handle} && t.tables.table == s.tables.table;
    assert t.tables.saved == if OfClass(hacks, s.live[handle].cls) != [] then s.tables.saved - {handle}
           else s.tables.saved;
    VictimsWithout(s.live, s.born, hacks, pending, handle);
    SavedWithout(s.tables.saved, hacks, pending, handle);
    assert SlotsAgree(t.tables, hacks) by { assert forall cls :: SlotOf(t.tables, cls) == SlotOf(s.tables, cls); }
  }

  lemma NewVictims(live: map<nat, Obj>, born: nat, hacks: seq<Obj>, pending: map<nat, Obj>, handle: nat, cls: nat)
    requires Victims(live, born, hacks, pending) && handle !in live
    ensures Victims(live[handle := Obj(born, cls)], born + 1, hacks, pending)
  {
    assert OnePlaceEach(live[handle := Obj(born, cls)], pending);
  }

  lemma TablesStep<V>(s: State<V>, t: State<V>, hacks: seq<Obj>, pending: map<nat, Obj>)
    requires SavedByHistory(s, hacks, pending) && t.live == s.live && t.born == s.born
    requires t.tables.saved == s.tables.saved && t.tables.table == s.tables.table
    ensures SavedByHistory(t, hacks, pending)
  {
    assert forall cls :: SlotOf(t.tables, cls) == SlotOf(s.tables, cls);
  }

  lemma HackMoveStep<V>(s: State<V>, m: Move<V>, hacks: seq<Obj>, pending: map<nat, Obj>)
    requires SavedByHistory(s, hacks, pending) && Serials(s) && Enabled(s, m)
    requires m.PdoConstruct? || m.PdoStatement? || m.RedisConstruct?
    ensures SavedByHistory(Next(s, m), HacksNext(s, m, hacks), PendingNext(s, m, hacks, pending))
  {
    var handle, values := HandleHacked(s, m), Next(s, m).tables.values;
    if handle.Some? {
      HackStep(s, hacks, pending, handle.value, values);
      assert Next(s, m) == s.(tables := Hacked(s.tables, handle.value, s.live[handle.value].cls).(values := values));
    }
  }

  lemma MoveStep<V>(s: State<V>, m: Move<V>, hacks: seq<Obj>, pending: map<nat, Obj>)
    requires SavedByHistory(s, hacks, pending) && Serials(s) && Enabled(s, m)
    ensures SavedByHistory(Next(s, m), HacksNext(s, m, hacks), PendingNext(s, m, hacks, pending))
  {
    match m {
      case New(handle, cls) => NewVictims(s.live, s.born, hacks, pending, handle, cls);
      case Vanish(handle) => VictimsWithout(s.live, s.born, hacks, pending, handle);
      case RedisConnect(handle, peer) => TablesStep(s, s.(tables := Connected(s.tables, handle, peer)), hacks, pending);
      case Destroy(handle) => DestroyStep(s, hacks, pending, handle);
      case PdoStatement(_, _) => HackMoveStep(s, m, hacks, pending);
      case PdoConstruct(_, _) => HackMoveStep(s, m, hacks, pending);
      case RedisConstruct(_) => HackMoveStep(s, m, hacks, pending);
    }
  }

  lemma {:induction false} SavedIsHistory<V>(moves: seq<Move<V>>)
    requires IsRun(moves)
    ensures SavedByHistory(Final(moves), Hacks(moves), Pending(moves))
  {
    if moves != [] {
      SavedIsHistory(Init(moves));
      SerialsAreUnique(Init(moves));
      MoveStep(Final(Init(moves)), Last(moves), Hacks(Init(moves)), Pending(Init(moves)));
    }
  }

  /** Destroying an object runs its original destructor exactly when its class has
      never been hacked; or an object is pending on the handle, this one or one
      that has vanished from it, that was the first of its own class to be
      hacked, and just once. Everybody else's original is lost. */
  lemma OriginalRunsExactly<V>(moves: seq<Move<V>>, handle: nat)
    requires IsRun(moves) && handle in Final(moves).live
    ensures var s := Final(moves);
            var t := Next(s, Destroy(handle));
            var obj, pending := s.live[handle], Pending(moves);
            && t.tables.ran == s.tables.ran
               + (if HacksOf(moves, obj.cls) == []
                  || (handle in pending && Found(Hacks(moves), pending[handle]).Original?)
                  then [obj] else [])
            && (HacksOf(moves, obj.cls) != [] ==> handle !in t.tables.saved && handle !in t.tables.values)
  {
    SavedIsHistory(moves);
  }

  /** An object pending on a handle is the one that bears it, or has vanished. */
  lemma {:induction false} PendingOrVanished<V>(moves: seq<Move<V>>, handle: nat)
    requires IsRun(moves) && handle in Pending(moves)
    ensures var s := Final(moves);
            (handle in s.live && s.live[handle] == Pending(moves)[handle])
                || HasVanished(moves, handle, Pending(moves)[handle])
  {
    var s, m := Final(Init(moves)), Last(moves);
    if HandleHacked(s, m) != Some(handle) {
      PendingOrVanished(Init(moves), handle);
      var obj := Pending(moves)[handle];
      if HasVanished(Init(moves), handle, obj) {
        var k :| 0 <= k < |Init(moves)| && VanishesAt(Init(moves), k, handle, obj);
        assert Init(moves)[..k] == moves[..k];
        assert VanishesAt(moves, k, handle, obj);
      } else if m == Vanish(handle) {
        assert moves[..|moves| - 1] == Init(moves);
        assert VanishesAt(moves, |moves| - 1, handle, obj);
      } else if m == Destroy(handle) {
        SavedIsHistory(Init(moves));
      }
    }
  }

  ghost predicate VanishesAt<V>(moves: seq<Move<V>>, k: nat, handle: nat, obj: Obj)
    requires k < |moves|
  {
    && moves[k] == Vanish(handle) && IsRun(moves[..k])
    && handle in Final(moves[..k]).live && Final(moves[..k]).live[handle] == obj
  }

  ghost predicate HasVanished<V>(moves: seq<Move<V>>, handle: nat, obj: Obj) {
    exists k :: 0 <= k < |moves| && VanishesAt(moves, k, handle, obj)
  }

  /** In a hacked class the original runs for another object than the first hacked
      one exactly when the hack of an object that has vanished from the handle is
      still pending, and that one was the first of its class and hacked once. */
  lemma StrangersOriginalExactly<V>(moves: seq<Move<V>>, handle: nat)
    requires IsRun(moves) && handle in Final(moves).live
    requires HacksOf(moves, Final(moves).live[handle].cls) != []
    ensures var s, pending := Final(moves), Pending(moves);
            var obj := s.live[handle];
            (Next(s, Destroy(handle)).tables.ran == s.tables.ran + [obj] && obj.serial != HacksOf(moves, obj.cls)[0])
            <==> && handle in pending && Found(Hacks(moves), pending[handle]).Original?
                 && pending[handle] != obj && HasVanished(moves, handle, pending[handle])
  {
    SavedIsHistory(moves);
    SerialsAreUnique(moves);
    OriginalRunsExactly(moves, handle);
    var s, obj := Final(moves), Final(moves).live[handle];
    assert s.tables.ran + [] != s.tables.ran + [obj] by {
      assert |s.tables.ran + []| != |s.tables.ran + [obj]|;
    }
    if handle in Pending(moves) {
      PendingOrVanished(moves, handle);
    }
    assert HacksOf(moves, obj.cls)[0] in HacksOf(moves, obj.cls);
  }

  lemma ConnectionHacked<V>(dsn: V)
    ensures var moves := [New(1, 0), PdoConstruct(1, Some(dsn))];
            && IsRun(moves) && HacksOf(moves, 0) == [0]
            && Final(moves) == State(Tables(map[1 := dsn], map[1 := Original], map[0 := Agent], []),
                                     map[1 := Obj(0, 0)], 1)
  {
    var m0, m1: Move<V> := New(1, 0), PdoConstruct(1, Some(dsn));
    Extend([], m0);
    assert [] + [m0] == [m0];
    Extend([m0], m1);
    assert [m0] + [m1] == [m0, m1];
    assert Init([m0, m1]) == [m0] && Init([m0]) == [];
    assert Hacks([m0]) == [] && Final([m0]).live[1] == Obj(0, 0);
    assert HandleHacked(Final([m0]), m1) == Some(1) && Hacks([m0, m1]) == [] + [Obj(0, 0)];
    OneMoreHack([], Obj(0, 0));
  }

  /** It happens: a connection's constructor throws, and a subclass whose own
      constructor leaves the parent's out gets the handle. */
  lemma StrangerGetsTheOriginal<V>(dsn: V)
    ensures var moves := [New(1, 0), PdoConstruct(1, Some(dsn)), Vanish(1), New(1, 0), Destroy(1)];
            && IsRun(moves) && Final(moves).tables.ran == [Obj(1, 0)]
            && IsRun(moves[..2]) && HacksOf(moves[..2], 0) == [0]
  {
    var m0, m1, m2, m3, m4: Move<V> := New(1, 0), PdoConstruct(1, Some(dsn)), Vanish(1), New(1, 0), Destroy(1);
    ConnectionHacked(dsn);
    Extend([m0, m1], m2);
    assert [m0, m1] + [m2] == [m0, m1, m2];
    Extend([m0, m1, m2], m3);
    assert [m0, m1, m2] + [m3] == [m0, m1, m2, m3];
    Extend([m0, m1, m2, m3], m4);
    assert [m0, m1, m2, m3] + [m4] == [m0, m1, m2, m3, m4];
    assert [m0, m1, m2, m3, m4][..2] == [m0, m1];
  }

  // ---- how often originals run ----

  /** One move runs at most one original: that of the object it destroys. */
  lemma MoveRuns<V>(s: State<V>, m: Move<V>)
    requires Enabled(s, m)
    ensures Next(s, m).tables.ran == s.tables.ran
            || (m.Destroy? && Next(s, m).tables.ran == s.tables.ran + [s.live[m.handle]])
  {
  }

  /** No object's original runs twice; objects whose original has run are gone. */
  lemma {:induction false} NoneTwice<V>(moves: seq<Move<V>>)
    requires IsRun(moves)
    ensures Distinct(Final(moves).tables.ran) && AllGone(Final(moves))
  {
    if moves != [] {
      NoneTwice(Init(moves));
      SerialsAreUnique(Init(moves));
      MoveRuns(Final(Init(moves)), Last(moves));
      var ran := Final(Init(moves)).tables.ran;
      assert forall i :: 0 <= i < |ran| ==> ran[i] in ran;
    }
  }

  ghost predicate Distinct(ran: seq<Obj>) {
    forall i, j :: 0 <= i < j < |ran| ==> ran[i].serial != ran[j].serial
  }

  ghost predicate AllGone<V>(s: State<V>) {
    forall o :: o in s.tables.ran ==> o.serial < s.born && forall h :: h in s.live ==> s.live[h].serial != o.serial
  }

  /** The last move destroys an object of a class that has been hacked. */
  ghost predicate IsLate<V>(moves: seq<Move<V>>)
    requires IsRun(moves)
  {
    moves != [] && Last(moves).Destroy? && HacksOf(Init(moves), Final(Init(moves)).live[Last(moves).handle].cls) != []
  }

  /** How many objects were destroyed before their class was hacked. */
  ghost function Early<V>(moves: seq<Move<V>>): nat
    requires IsRun(moves)
  {
    if moves == [] then 0 else Early(Init(moves)) + if Last(moves).Destroy? && !IsLate(moves) then 1 else 0
  }

  /** The hacked objects whose saved originals were called, one for each original
      that ran after its class was hacked. */
  ghost function UsedUp<V>(moves: seq<Move<V>>): seq<Obj>
    requires IsRun(moves)
  {
    if moves == [] then []
    else
      var was, pending := UsedUp(Init(moves)), Pending(Init(moves));
      if IsLate(moves) && Last(moves).handle in pending
          && Found(Hacks(Init(moves)), pending[Last(moves).handle]).Original?
      then was + [pending[Last(moves).handle]] else was
  }

  /** Those that are used up were the first of their class, and cannot come again. */
  ghost predicate UsedUpForGood(live: map<nat, Obj>, born: nat, hacks: seq<Obj>, pending: map<nat, Obj>,
                                used: seq<Obj>) {
    && (forall u :: u in used ==>
        OfClass(hacks, u.cls) != [] && OfClass(hacks, u.cls)[0] == u.serial && u.serial < born)
    && (forall u, h :: u in used && h in pending ==> pending[h] != u)
    && (forall u, h :: u in used && h in live ==> live[h] != u)
    && OneOfAClass(used)
  }

  ghost predicate OneOfAClass(used: seq<Obj>) {
    forall i, j :: 0 <= i < j < |used| ==> used[i].cls != used[j].cls
  }

  ghost predicate UsedUpAfter<V>(moves: seq<Move<V>>)
    requires IsRun(moves)
  {
    UsedUpForGood(Final(moves).live, Final(moves).born, Hacks(moves), Pending(moves), UsedUp(moves))
  }

  /** Whatever vanishes: every original that has run was that of an object destroyed
      before its class was hacked, or used up the first hack of some class; and
      no class's first hack is used up twice. So once classes are hacked, no more
      originals run than there are hacked classes. */
  lemma {:induction false} OriginalsAreCounted<V>(moves: seq<Move<V>>)
    requires IsRun(moves)
    ensures |Final(moves).tables.ran| == Early(moves) + |UsedUp(moves)|
    ensures OneOfAClass(UsedUp(moves)) && forall u :: u in UsedUp(moves) ==> HacksOf(moves, u.cls) != []
    ensures UsedUpAfter(moves)
  {
    if moves != [] {
      OriginalsAreCounted(Init(moves));
      SavedIsHistory(Init(moves));
      SerialsAreUnique(Init(moves));
      if Last(moves).Destroy? {
        OriginalRunsExactly(Init(moves), Last(moves).handle);
        DestroyUsesUp(moves);
      } else {
        MoveRuns(Final(Init(moves)), Last(moves));
        OthersUseNothingUp(moves);
      }
    }
  }

  lemma UsedWithout(live: map<nat, Obj>, born: nat, hacks: seq<Obj>, pending: map<nat, Obj>, used: seq<Obj>,
                    handle: nat)
    requires UsedUpForGood(live, born, hacks, pending, used)
    ensures UsedUpForGood(live - {handle}, born, hacks, pending, used)
    ensures UsedUpForGood(live - {handle}, born, hacks, pending - {handle}, used)
  {
  }

  lemma UsedNow(live: map<nat, Obj>, born: nat, hacks: seq<Obj>, pending: map<nat, Obj>, used: seq<Obj>, handle: nat)
    requires UsedUpForGood(live, born, hacks, pending, used) && Victims(live, born, hacks, pending)
    requires handle in pending && Found(hacks, pending[handle]).Original?
    ensures UsedUpForGood(live - {handle}, born, hacks, pending - {handle}, used + [pending[handle]])
  {
    var victim := pending[handle];
    forall i | 0 <= i < |used|
      ensures used[i].cls != victim.cls
    {
      assert used[i] in used && victim != used[i];
    }
  }

  lemma DestroyUsesUp<V>(moves: seq<Move<V>>)
    requires IsRun(moves) && moves != [] && Last(moves).Destroy? && UsedUpAfter(Init(moves))
    requires Victims(Final(Init(moves)).live, Final(Init(moves)).born, Hacks(Init(moves)), Pending(Init(moves)))
    ensures UsedUpAfter(moves)
  {
    var s, handle, hacks, pending := Final(Init(moves)), Last(moves).handle, Hacks(Init(moves)), Pending(Init(moves));
    assert Final(moves).live == s.live - {handle} && Final(moves).born == s.born && Hacks(moves) == hacks;
    UsedOrNot(s.live, s.born, hacks, pending, UsedUp(Init(moves)), handle);
  }

  /** A destroyed object's handle uses a pending first hack up, or nothing. */
  lemma UsedOrNot(live: map<nat, Obj>, born: nat, hacks: seq<Obj>, pending: map<nat, Obj>, used: seq<Obj>, handle: nat)
    requires UsedUpForGood(live, born, hacks, pending, used) && Victims(live, born, hacks, pending)
    ensures UsedUpForGood(live - {handle}, born, hacks, pending, used)
    ensures UsedUpForGood(live - {handle}, born, hacks, pending - {handle}, used)
    ensures handle in pending && Found(hacks, pending[handle]).Original? ==>
              UsedUpForGood(live - {handle}, born, hacks, pending - {handle}, used + [pending[handle]])
  {
    UsedWithout(live, born, hacks, pending, used, handle);
    if handle in pending && Found(hacks, pending[handle]).Original? {
      UsedNow(live, born, hacks, pending, used, handle);
    }
  }

  lemma UsedByNoHack(live: map<nat, Obj>, born: nat, hacks: seq<Obj>, pending: map<nat, Obj>, used: seq<Obj>,
                     handle: nat)
    requires UsedUpForGood(live, born, hacks, pending, used) && handle in live
    ensures UsedUpForGood(live, born, hacks + [live[handle]], pending[handle := live[handle]], used)
  {
    OneMoreHack(hacks, live[handle]);
  }

  lemma OthersUseNothingUp<V>(moves: seq<Move<V>>)
    requires IsRun(moves) && moves != [] && !Last(moves).Destroy? && UsedUpAfter(Init(moves))
    ensures UsedUpAfter(moves)
  {
    var s, m, hacks, pending := Final(Init(moves)), Last(moves), Hacks(Init(moves)), Pending(Init(moves));
    assert UsedUp(moves) == UsedUp(Init(moves));
    match HandleHacked(s, m) {
      case Some(handle) => UsedByNoHack(s.live, s.born, hacks, pending, UsedUp(moves), handle);
      case None => if m.Vanish? { UsedWithout(s.live, s.born, hacks, pending, UsedUp(moves), m.handle); }
    }
  }

  // ---- runs in which every object that goes has its destructor called ----

  ghost predicate NoVanish<V>(moves: seq<Move<V>>) {
    forall i :: 0 <= i < |moves| ==> !moves[i].Vanish?
  }

  /** Then it is always the destroyed object itself that must have been the first. */
  lemma OriginalRunsForTheFirst<V>(moves: seq<Move<V>>, handle: nat)
    requires IsRun(moves) && NoVanish(moves) && handle in Final(moves).live
    ensures var s := Final(moves);
            var t, obj := Next(s, Destroy(handle)), s.live[handle];
            var hacks := HacksOf(moves, obj.cls);
            t.tables.ran == s.tables.ran + (if hacks == [] || FirstAndOnce(hacks, obj.serial) then [obj] else [])
  {
    OriginalRunsExactly(moves, handle);
    SavedIsHistory(moves);
    if handle in Pending(moves) {
      PendingOrVanished(moves, handle);
      assert !HasVanished(moves, handle, Pending(moves)[handle]);
    }
  }

  lemma OfClassGrows(hacks: seq<Obj>, obj: Obj, cls: nat)
    ensures OfClass(hacks, cls) <= OfClass(hacks + [obj], cls)
  {
    assert Init(hacks + [obj]) == hacks;
  }

  /** Then, once a class is hacked, one object of it at most, the first one hacked,
      is ever destroyed by the original destructor, however many there are. */
  lemma {:induction false} LateOriginalsAreTheFirst<V>(moves: seq<Move<V>>, n: nat, cls: nat)
    requires n <= |moves| && IsRun(moves) && NoVanish(moves)
    ensures IsRun(moves[..n])
    ensures HacksOf(moves[..n], cls) <= HacksOf(moves, cls)
    ensures Final(moves[..n]).tables.ran <= Final(moves).tables.ran
    ensures HacksOf(moves[..n], cls) != [] ==>
              var late, ran := |Final(moves[..n]).tables.ran|, Final(moves).tables.ran;
              forall i :: late <= i < |ran| && ran[i].cls == cls ==> ran[i].serial == HacksOf(moves[..n], cls)[0]
    decreases |moves|
  {
    if n == |moves| {
      assert moves[..n] == moves;
    } else {
      assert Init(moves)[..n] == moves[..n];
      assert forall i :: 0 <= i < |Init(moves)| ==> Init(moves)[i] == moves[i];
      LateOriginalsAreTheFirst(Init(moves), n, cls);
      var s, m := Final(Init(moves)), Last(moves);
      if HandleHacked(s, m).Some? {
        OfClassGrows(Hacks(Init(moves)), s.live[HandleHacked(s, m).value], cls);
      }
      MoveRuns(s, m);
      if m.Destroy? {
        OriginalRunsForTheFirst(Init(moves), m.handle);
      }
    }
  }

  lemma OneLateOriginalPerClass<V>(moves: seq<Move<V>>, n: nat, cls: nat, i: nat, j: nat)
    requires n <= |moves| && IsRun(moves) && NoVanish(moves)
    requires IsRun(moves[..n]) && HacksOf(moves[..n], cls) != []
    requires |Final(moves[..n]).tables.ran| <= i <= j < |Final(moves).tables.ran|
    requires Final(moves).tables.ran[i].cls == cls == Final(moves).tables.ran[j].cls
    ensures i == j
  {
    LateOriginalsAreTheFirst(moves, n, cls);
    NoneTwice(moves);
  }
}
