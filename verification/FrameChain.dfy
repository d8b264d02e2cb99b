/** Stack frames, and how the agent finds out on behalf of which request a frame
    runs: it follows the chain of calling frames to the wrapper of a request. */
module FrameChain {
  import opened Common

  /** The function the agent puts around every swoole request callback. */
  const WRAPPER: string := "skywalking_hack_swoole_on_request_please_do_not_use"

  datatype Kind = Internal | User

  /** A PHP function. `readable` says that its name and scope are valid UTF-8. */
  datatype Function = Function(kind: Kind, name: Option<string>, scope: Option<string>, readable: bool)

  /** The first argument of a frame, as far as the agent looks at it. */
  datatype Argument = NotAnObject | Object(fd: Option<int>)

  /** What a frame says about itself. The address identifies it while it lives. */
  datatype Frame = Frame(address: nat, callee: Function, argument: Argument)

  predicate IsWrapper(f: Frame) {
    f.callee.name == Some(WRAPPER)
  }

  /** The fd the wrapper frame's request object carries, if it has one. */
  function RequestFd(f: Frame): Option<int> {
    match f.argument
    case NotAnObject => None
    case Object(fd) => fd
  }

  /** The request a frame runs for; the chain starts at the frame itself and
      goes to its callers. Outside swoole there is only the one request. */
  function RequestIdOf(isSwoole: bool, chain: seq<Frame>): Option<int> {
    if !isSwoole || chain == [] then None
    else if IsWrapper(chain[0]) then RequestFd(chain[0])
    else RequestIdOf(isSwoole, chain[1..])
  }

  ghost predicate NoWrapper(chain: seq<Frame>) {
    forall i :: 0 <= i < |chain| ==> !IsWrapper(chain[i])
  }

  lemma {:induction false} CallsInheritTheRequest(isSwoole: bool, inner: seq<Frame>, outer: seq<Frame>)
    requires NoWrapper(inner)
    ensures RequestIdOf(isSwoole, inner + outer) == RequestIdOf(isSwoole, outer)
  {
    if inner == [] {
      assert inner + outer == outer;
    } else {
      CallsInheritTheRequest(isSwoole, inner[1..], outer);
      assert (inner + outer)[1..] == inner[1..] + outer;
    }
  }

  /** The nearest enclosing wrapper decides, however many of them are further
      out; without one there is no request id. */
  lemma {:induction false} NearestWrapperDecides(chain: seq<Frame>, i: nat)
    requires i <= |chain| && NoWrapper(chain[..i])
    ensures i < |chain| && IsWrapper(chain[i]) ==> RequestIdOf(true, chain) == RequestFd(chain[i])
    ensures i == |chain| ==> RequestIdOf(true, chain) == None
  {
    CallsInheritTheRequest(true, chain[..i], chain[i..]);
    assert chain[..i] + chain[i..] == chain;
  }

  predicate BearsWrapperName(f: Frame) {
    f.callee.name == Some(WRAPPER)
  }

  /** What the request id of a chain should be, said of the frames themselves: the fd
      of the request object that the nearest frame of the wrapper's name has for
      its first argument; and none without such a frame or outside swoole. */
  ghost predicate NearestSays(isSwoole: bool, chain: seq<Frame>, request: Option<int>) {
    if !isSwoole || forall j :: 0 <= j < |chain| ==> !BearsWrapperName(chain[j]) then request == None
    else
      exists i ::
        && 0 <= i < |chain| && BearsWrapperName(chain[i])
        && (forall j :: 0 <= j < i ==> !BearsWrapperName(chain[j]))
        && (if request.Some? then chain[i].argument == Object(request)
            else chain[i].argument == NotAnObject || chain[i].argument == Object(None))
  }

  lemma {:induction false} RequestIdIsNearest(isSwoole: bool, chain: seq<Frame>)
    ensures NearestSays(isSwoole, chain, RequestIdOf(isSwoole, chain))
  {
    var i := NearestWrapper(chain);
    NearestWrapperDecides(chain, i);
    if isSwoole && i < |chain| {
      assert BearsWrapperName(chain[i]);
      forall j | 0 <= j < i
        ensures !BearsWrapperName(chain[j])
      {
        assert !IsWrapper(chain[..i][j]);
      }
    } else if isSwoole {
      assert chain[..i] == chain;
    }
  }

  /** The nearest wrapper that encloses the head of the chain, and it has an fd. */
  ghost predicate HasWrapperWithFd(chain: seq<Frame>, i: nat) {
    i < |chain| && NoWrapper(chain[..i]) && IsWrapper(chain[i]) && RequestFd(chain[i]).Some?
  }

  lemma {:induction false} NearestWrapper(chain: seq<Frame>) returns (i: nat)
    ensures i <= |chain| && NoWrapper(chain[..i]) && (i < |chain| ==> IsWrapper(chain[i]))
  {
    if chain == [] || IsWrapper(chain[0]) {
      i := 0;
    } else {
      var j := NearestWrapper(chain[1..]);
      i := j + 1;
      assert chain[..i] == [chain[0]] + chain[1..][..j];
    }
  }

  /** Turning the swoole flag on between the begin and the end of a frame changes
      the answer exactly for frames whose nearest wrapper has an fd. */
  lemma FlagMattersUnderAWrapperOnly(chain: seq<Frame>)
    ensures RequestIdOf(false, chain) != RequestIdOf(true, chain) <==> exists i :: HasWrapperWithFd(chain, i)
  {
    forall i | HasWrapperWithFd(chain, i)
      ensures RequestIdOf(true, chain).Some?
    {
      NearestWrapperDecides(chain, i);
    }
    var i := NearestWrapper(chain);
    NearestWrapperDecides(chain, i);
    assert RequestIdOf(true, chain).Some? ==> HasWrapperWithFd(chain, i);
  }

  /** A frame of the engine, linked to its caller. */
  class ExecuteData {
    const frame: Frame
    const prev: ExecuteData?

    constructor (frame: Frame, prev: ExecuteData?)
      ensures this.frame == frame && this.prev == prev
    {
      this.frame := frame;
      this.prev := prev;
    }
  }

  /** `chain` is what following `prev` from `start` visits, and it ends. */
  ghost predicate IsCallChain(start: ExecuteData?, chain: seq<ExecuteData>) {
    if start == null then chain == []
    else chain != [] && chain[0] == start && IsCallChain(start.prev, chain[1..])
  }

  ghost function Frames(chain: seq<ExecuteData>): seq<Frame> {
    seq(|chain|, i requires 0 <= i < |chain| => chain[i].frame)
  }

  /** `infer_request_id`, which terminates on every chain that ends. */
  method InferRequestId(isSwoole: bool, executeData: ExecuteData,
                        ghost chain: seq<ExecuteData>) returns (r: Option<int>)
    requires IsCallChain(executeData, chain)
    ensures r == RequestIdOf(isSwoole, Frames(chain))
  {
    if !isSwoole {
      return None;
    }
    var current: ExecuteData? := executeData;
    ghost var rest := chain;
    while current != null
      invariant IsCallChain(current, rest)
      invariant RequestIdOf(isSwoole, Frames(chain)) == RequestIdOf(isSwoole, Frames(rest))
      decreases |rest|
    {
      assert Frames(rest)[1..] == Frames(rest[1..]);
      if current.frame.callee.name == Some(WRAPPER) {
        match current.frame.argument {
          case NotAnObject => return None;
          case Object(fd) => return fd;
        }
      }
      current := current.prev;
      rest := rest[1..];
    }
    return None;
  }
}
