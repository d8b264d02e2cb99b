/** The curl hooks re-enter the dispatcher: while the multi-exec hook holds
    CURL_MULTI_INFO_MAP, it calls curl functions, which may run PHP code, which
    may call curl functions. Borrowing a cell that is borrowed already panics. */
module CurlBorrow {
  /** CURL_HEADERS and CURL_MULTI_INFO_MAP. */
  datatype Cell = Headers | Map

  datatype Function =
    /** curl_setopt, curl_setopt_array, curl_close */
    | HeaderFunction
    | Exec
    /** curl_multi_add_handle, curl_multi_remove_handle, curl_multi_close */
    | MultiFunction
    | MultiExec
    /** Any function the plugin has no hook for, such as curl_getinfo. */
    | Unhooked

  /** One step of a hook: borrowing a cell, letting it go, calling a function. */
  datatype Step = Borrow(cell: Cell) | Release(cell: Cell) | Out(call: Call)
  datatype Steps = End | Do(step: Step, rest: Steps)

  /** One execution of a PHP function: the steps of its before hook, and whether
      it ends well; the calls its original makes; the steps of its after hook. */
  datatype Call = Call(callee: Function, before: Steps, beforeOk: bool, body: Calls, after: Steps)
  datatype Calls = NoCalls | Calls(first: Call, rest: Calls)

  // ---- the steps of the hooks, as the code takes them ----

  /** Calls of curl functions, one after the other. */
  predicate IsOuts(steps: Steps) {
    steps.End? || (steps.step.Out? && IsOuts(steps.rest))
  }

  /** The steps begin by accessing a cell, with nothing done in between. */
  predicate Accesses(steps: Steps, cell: Cell) {
    steps.Do? && steps.step == Borrow(cell) && steps.rest.Do? && steps.rest.step == Release(cell)
  }

  /** Header injections: the remembered list is taken, then curl_setopt called. A
      hook that fails stops anywhere. */
  predicate IsInjections(steps: Steps) {
    steps.End? || (
      && Accesses(steps, Headers)
      && var rest := steps.rest.rest;
         rest.End? || (rest.step.Out? && IsInjections(rest.rest)))
  }

  /** Reading the handles' infos, then injecting. */
  predicate IsInfosThenInjections(steps: Steps) {
    IsInjections(steps) || (steps.Do? && steps.step.Out? && IsInfosThenInjections(steps.rest))
  }

  predicate BeforeHook(f: Function, steps: Steps, ok: bool) {
    match f
    case HeaderFunction => steps.End? || (Accesses(steps, Headers) && steps.rest.rest.End?)
    case Exec => IsInfosThenInjections(steps)
    case MultiFunction => if steps.End? then !ok else Accesses(steps, Map) && steps.rest.rest.End?
    case MultiExec => if steps.End? then !ok else steps.step == Borrow(Map) && IsInfosThenInjections(steps.rest)
    case Unhooked => steps.End?
  }

  predicate AfterHook(f: Function, steps: Steps) {
    match f
    case Exec => IsOuts(steps)
    case MultiExec => steps.End? || (Accesses(steps, Map) && IsOuts(steps.rest.rest))
    case _ => steps.End?
  }

  predicate FollowsTheCode(c: Call)
    decreases c, 1
  {
    && BeforeHook(c.callee, c.before, c.beforeOk) && StepsFollow(c.before)
    && AllFollow(c.body)
    && AfterHook(c.callee, c.after) && StepsFollow(c.after)
  }

  predicate AllFollow(cs: Calls)
    decreases cs, 0
  {
    match cs
    case NoCalls => true
    case Calls(c, rest) => FollowsTheCode(c) && AllFollow(rest)
  }

  predicate StepsFollow(steps: Steps)
    decreases steps, 0
  {
    match steps
    case End => true
    case Do(step, rest) => (step.Out? ==> FollowsTheCode(step.call)) && StepsFollow(rest)
  }

  // ---- running ----

  /** The borrow flags, and how often borrowing each cell has panicked. */
  datatype Cells = Cells(headers: bool, map_: bool, headerPanics: nat, mapPanics: nat)

  function IsBorrowed(s: Cells, cell: Cell): bool {
    if cell.Headers? then s.headers else s.map_
  }

  function SetBorrowed(s: Cells, cell: Cell, borrowed: bool): Cells {
    if cell.Headers? then s.(headers := borrowed) else s.(map_ := borrowed)
  }

  function Panicked(s: Cells, cell: Cell): Cells {
    if cell.Headers? then s.(headerPanics := s.headerPanics + 1) else s.(mapPanics := s.mapPanics + 1)
  }

  /** The dispatcher: before, original, and after if before ended well. */
  function Run(c: Call, s: Cells): Cells
    decreases c, 1
  {
    var (s1, ok) := RunSteps(c.before, s, {});
    var s2 := RunAll(c.body, s1);
    if ok && c.beforeOk then RunSteps(c.after, s2, {}).0 else s2
  }

  function RunAll(cs: Calls, s: Cells): Cells
    decreases cs, 0
  {
    match cs
    case NoCalls => s
    case Calls(c, rest) => RunAll(rest, Run(c, s))
  }

  /** The steps of one hook, which holds `held`. However it ends, by running to
      its end, by failing or by panicking, what it holds is let go. */
  function RunSteps(steps: Steps, s: Cells, held: set<Cell>): (Cells, bool)
    decreases steps, 0
  {
    match steps
    case End => (LetGo(s, held), true)
    case Do(Borrow(cell), rest) =>
      if IsBorrowed(s, cell) then (LetGo(Panicked(s, cell), held), false)
      else RunSteps(rest, SetBorrowed(s, cell, true), held + {cell})
    case Do(Release(cell), rest) => RunSteps(rest, SetBorrowed(s, cell, false), held - {cell})
    case Do(Out(c), rest) => RunSteps(rest, Run(c, s), held)
  }

  function LetGo(s: Cells, held: set<Cell>): Cells {
    s.(headers := s.headers && Headers !in held, map_ := s.map_ && Map !in held)
  }

  // ---- what the shapes amount to ----

  /** No cell is borrowed twice by the hook itself, none is let go that it does
      not hold, and CURL_HEADERS is held across no call. */
  predicate Disciplined(steps: Steps, held: set<Cell>)
    decreases steps
  {
    match steps
    case End => true
    case Do(Borrow(cell), rest) => cell !in held && Disciplined(rest, held + {cell})
    case Do(Release(cell), rest) => cell in held && Disciplined(rest, held - {cell})
    case Do(Out(_), rest) => Headers !in held && Disciplined(rest, held)
  }

  lemma {:induction false} OutsAreDisciplined(steps: Steps, held: set<Cell>)
    requires IsOuts(steps) && Headers !in held
    ensures Disciplined(steps, held)
  {
    if steps.Do? { OutsAreDisciplined(steps.rest, held); }
  }

  lemma {:induction false} InjectionsAreDisciplined(steps: Steps, held: set<Cell>)
    requires IsInfosThenInjections(steps) && Headers !in held
    ensures Disciplined(steps, held)
    decreases steps
  {
    if steps.Do? && steps.step.Out? {
      InjectionsAreDisciplined(steps.rest, held);
    } else if steps.Do? {
      assert held + {Headers} - {Headers} == held;
      var rest := steps.rest.rest;
      if rest.Do? { InjectionsAreDisciplined(rest.rest, held); }
    }
  }

  lemma HooksAreDisciplined(c: Call)
    requires FollowsTheCode(c)
    ensures Disciplined(c.before, {}) && Disciplined(c.after, {})
  {
    if c.callee.Exec? {
      InjectionsAreDisciplined(c.before, {});
      OutsAreDisciplined(c.after, {});
    }
    assert {} + {Map} == {Map} && {Map} - {Map} == {};
    if c.callee.MultiExec? {
      if c.before.Do? { InjectionsAreDisciplined(c.before.rest, {Map}); }
      if c.after.Do? { OutsAreDisciplined(c.after.rest.rest, {}); }
    }
  }

  // ---- borrows end, and CURL_HEADERS never panics ----

  /** Afterwards the cells are as before, and CURL_HEADERS has not panicked. */
  predicate Restored(s: Cells, t: Cells) {
    t.headers == s.headers && t.map_ == s.map_ && t.headerPanics == s.headerPanics && t.mapPanics >= s.mapPanics
  }

  /** Whatever runs, and whichever hooks fail or panic: every borrow ends with its
      hook, and CURL_HEADERS is never found borrowed. */
  lemma {:induction false} BorrowsEnd(c: Call, s: Cells)
    requires FollowsTheCode(c) && !s.headers
    ensures Restored(s, Run(c, s))
    decreases c, 1
  {
    HooksAreDisciplined(c);
    StepsEnd(c.before, s, {});
    var (s1, ok) := RunSteps(c.before, s, {});
    AllEnd(c.body, s1);
    if ok { StepsEnd(c.after, RunAll(c.body, s1), {}); }
  }

  lemma {:induction false} AllEnd(cs: Calls, s: Cells)
    requires AllFollow(cs) && !s.headers
    ensures Restored(s, RunAll(cs, s))
    decreases cs, 0
  {
    match cs
    case NoCalls =>
    case Calls(c, rest) =>
      BorrowsEnd(c, s);
      AllEnd(rest, Run(c, s));
  }

  /** What a hook holds is borrowed; CURL_HEADERS by nobody else. */
  predicate Holds(s: Cells, held: set<Cell>) {
    (s.headers <==> Headers in held) && (Map in held ==> s.map_)
  }

  lemma {:induction false} StepsEnd(steps: Steps, s: Cells, held: set<Cell>)
    requires StepsFollow(steps) && Disciplined(steps, held) && Holds(s, held)
    ensures Restored(LetGo(s, held), RunSteps(steps, s, held).0)
    decreases steps, 0
  {
    match steps
    case End =>
    case Do(Borrow(cell), rest) =>
      if !IsBorrowed(s, cell) {
        StepsEnd(rest, SetBorrowed(s, cell, true), held + {cell});
      }
    case Do(Release(cell), rest) => StepsEnd(rest, SetBorrowed(s, cell, false), held - {cell});
    case Do(Out(c), rest) =>
      BorrowsEnd(c, s);
      StepsEnd(rest, Run(c, s), held);
  }

  // ---- and exactly when CURL_MULTI_INFO_MAP panics ----

  /** Nothing in the call, at whatever depth, borrows the map. */
  predicate Untouching(c: Call)
    decreases c, 1
  {
    StepsUntouching(c.before) && AllUntouching(c.body) && (c.beforeOk ==> StepsUntouching(c.after))
  }

  predicate AllUntouching(cs: Calls)
    decreases cs, 0
  {
    match cs
    case NoCalls => true
    case Calls(c, rest) => Untouching(c) && AllUntouching(rest)
  }

  predicate StepsUntouching(steps: Steps)
    decreases steps, 0
  {
    match steps
    case End => true
    case Do(Borrow(cell), rest) => cell != Map && StepsUntouching(rest)
    case Do(Release(_), rest) => StepsUntouching(rest)
    case Do(Out(c), rest) => Untouching(c) && StepsUntouching(rest)
  }

  /** Nowhere in the call does PHP code run by a multi-exec hook's own curl calls
      get back to a function that borrows the map. */
  predicate Harmless(c: Call)
    decreases c, 1
  {
    StepsHarmless(c.before, false) && AllHarmless(c.body) && (c.beforeOk ==> StepsHarmless(c.after, false))
  }

  predicate AllHarmless(cs: Calls)
    decreases cs, 0
  {
    match cs
    case NoCalls => true
    case Calls(c, rest) => Harmless(c) && AllHarmless(rest)
  }

  predicate StepsHarmless(steps: Steps, holdsMap: bool)
    decreases steps, 0
  {
    match steps
    case End => true
    case Do(Borrow(cell), rest) => StepsHarmless(rest, holdsMap || cell == Map)
    case Do(Release(cell), rest) => StepsHarmless(rest, holdsMap && cell != Map)
    case Do(Out(c), rest) => (if holdsMap then Untouching(c) else Harmless(c)) && StepsHarmless(rest, holdsMap)
  }

  /** With the map borrowed by a caller, a call panics exactly when something in
      it borrows the map; either way it does not get to change it. */
  lemma {:induction false} UnderABorrow(c: Call, s: Cells)
    requires FollowsTheCode(c) && !s.headers && s.map_
    ensures Run(c, s).mapPanics == s.mapPanics <==> Untouching(c)
    decreases c, 1
  {
    HooksAreDisciplined(c);
    StepsEnd(c.before, s, {});
    StepsUnderABorrow(c.before, s, {});
    var (s1, ok) := RunSteps(c.before, s, {});
    AllUnderABorrow(c.body, s1);
    AllEnd(c.body, s1);
    if ok {
      StepsUnderABorrow(c.after, RunAll(c.body, s1), {});
      StepsEnd(c.after, RunAll(c.body, s1), {});
    }
  }

  lemma {:induction false} AllUnderABorrow(cs: Calls, s: Cells)
    requires AllFollow(cs) && !s.headers && s.map_
    ensures RunAll(cs, s).mapPanics == s.mapPanics <==> AllUntouching(cs)
    decreases cs, 0
  {
    match cs
    case NoCalls =>
    case Calls(c, rest) =>
      UnderABorrow(c, s);
      BorrowsEnd(c, s);
      AllUnderABorrow(rest, Run(c, s));
      AllEnd(rest, Run(c, s));
  }

  lemma {:induction false} StepsUnderABorrow(steps: Steps, s: Cells, held: set<Cell>)
    requires StepsFollow(steps) && Disciplined(steps, held) && Holds(s, held) && s.map_ && Map !in held
    ensures RunSteps(steps, s, held).0.mapPanics == s.mapPanics <==> StepsUntouching(steps)
    ensures StepsUntouching(steps) ==> RunSteps(steps, s, held).1
    decreases steps, 0
  {
    match steps
    case End =>
    case Do(Borrow(cell), rest) =>
      if !IsBorrowed(s, cell) {
        StepsUnderABorrow(rest, SetBorrowed(s, cell, true), held + {cell});
      }
    case Do(Release(cell), rest) => StepsUnderABorrow(rest, SetBorrowed(s, cell, false), held - {cell});
    case Do(Out(c), rest) =>
      UnderABorrow(c, s);
      BorrowsEnd(c, s);
      StepsUnderABorrow(rest, Run(c, s), held);
      StepsEnd(rest, Run(c, s), held);
  }

  /** A whole execution borrows no borrowed cell exactly when PHP code run by a
      multi-exec hook's own calls keeps away from the curl_multi functions. */
  lemma {:induction false} NoDoubleBorrowExactly(c: Call, s: Cells)
    requires FollowsTheCode(c) && !s.headers && !s.map_
    ensures Run(c, s).headerPanics == s.headerPanics
    ensures Run(c, s).mapPanics == s.mapPanics <==> Harmless(c)
    decreases c, 1
  {
    BorrowsEnd(c, s);
    HooksAreDisciplined(c);
    StepsEnd(c.before, s, {});
    StepsNoDoubleBorrow(c.before, s, {});
    var (s1, ok) := RunSteps(c.before, s, {});
    AllNoDoubleBorrow(c.body, s1);
    AllEnd(c.body, s1);
    StepsNoDoubleBorrow(c.after, RunAll(c.body, s1), {});
    StepsEnd(c.after, RunAll(c.body, s1), {});
  }

  lemma {:induction false} AllNoDoubleBorrow(cs: Calls, s: Cells)
    requires AllFollow(cs) && !s.headers && !s.map_
    ensures RunAll(cs, s).mapPanics == s.mapPanics <==> AllHarmless(cs)
    decreases cs, 0
  {
    match cs
    case NoCalls =>
    case Calls(c, rest) =>
      NoDoubleBorrowExactly(c, s);
      BorrowsEnd(c, s);
      AllNoDoubleBorrow(rest, Run(c, s));
      AllEnd(rest, Run(c, s));
  }

  /** Nobody but the hook itself holds the map, so it never panics on its own. */
  lemma {:induction false} StepsNoDoubleBorrow(steps: Steps, s: Cells, held: set<Cell>)
    requires StepsFollow(steps) && Disciplined(steps, held) && Holds(s, held) && (s.map_ <==> Map in held)
    ensures RunSteps(steps, s, held).0.mapPanics == s.mapPanics <==> StepsHarmless(steps, Map in held)
    ensures RunSteps(steps, s, held).1
    decreases steps, 0
  {
    match steps
    case End =>
    case Do(Borrow(cell), rest) =>
      StepsNoDoubleBorrow(rest, SetBorrowed(s, cell, true), held + {cell});
    case Do(Release(cell), rest) => StepsNoDoubleBorrow(rest, SetBorrowed(s, cell, false), held - {cell});
    case Do(Out(c), rest) =>
      BorrowsEnd(c, s);
      if Map in held { UnderABorrow(c, s); } else { NoDoubleBorrowExactly(c, s); }
      StepsNoDoubleBorrow(rest, Run(c, s), held);
      StepsEnd(rest, Run(c, s), held);
  }

  const ADD := Call(MultiFunction, Do(Borrow(Map), Do(Release(Map), End)), true, NoCalls, End)
  const SETOPT := Call(HeaderFunction, End, true, Calls(ADD, NoCalls), End)
  const GETINFO := Call(Unhooked, End, true, NoCalls, End)
  const EXEC_BEFORE := Do(Out(GETINFO), Do(Borrow(Headers), Do(Release(Headers), Do(Out(SETOPT), End))))

  /** It can happen: curl_setopt turns a header object into a string, which runs
      its __toString, which adds a handle to the multi. That handle gets lost. */
  lemma HeaderObjectsCanPanic()
    ensures var exec := Call(MultiExec, Do(Borrow(Map), EXEC_BEFORE), true, NoCalls, End);
            FollowsTheCode(exec) && Run(exec, Cells(false, false, 0, 0)).mapPanics > 0
  {
    var exec := Call(MultiExec, Do(Borrow(Map), EXEC_BEFORE), true, NoCalls, End);
    assert FollowsTheCode(ADD) && FollowsTheCode(SETOPT) && FollowsTheCode(GETINFO);
    assert StepsFollow(EXEC_BEFORE);
    NoDoubleBorrowExactly(exec, Cells(false, false, 0, 0));
    BorrowsEnd(exec, Cells(false, false, 0, 0));
    assert !Untouching(ADD) && !Untouching(SETOPT);
    assert !StepsHarmless(EXEC_BEFORE, true);
  }
}
