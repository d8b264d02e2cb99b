/** The byte stream between the agent and the worker: items are encoded, and sent
    with their length in front of them. */
module Wire {
  import opened Common

  type Byte = b: int | 0 <= b < 256 witness 0

  /** What is reported to SkyWalking; the model does not look into it. */
  type Item = nat

  /** The serialisation, as far as it is relied on: decoding undoes encoding, and
      may fail on anything else; a length fits into a machine word. */
  datatype Codec = Codec(encode: Item -> Option<seq<Byte>>, decode: seq<Byte> -> Option<Item>)

  const WORD: nat := 0x1_0000_0000_0000_0000
  const SIZE_BYTES: nat := 8
  const SIZE_LIMIT: nat := Power(SIZE_BYTES)

  ghost predicate Sound(codec: Codec) {
    forall x: Item :: codec.encode(x).Some? ==>
        codec.decode(codec.encode(x).value) == Some(x) && |codec.encode(x).value| < SIZE_LIMIT
  }

  // ---- machine words ----

  function Power(k: nat): nat {
    if k == 0 then 1 else 256 * Power(k - 1)
  }

  /** The k bytes of n, lowest first. */
  function ToLe(n: nat, k: nat): (r: seq<Byte>)
    ensures |r| == k
  {
    if k == 0 then [] else [n % 256] + ToLe(n / 256, k - 1)
  }

  function FromLe(s: seq<Byte>): nat {
    if s == [] then 0 else s[0] + 256 * FromLe(s[1..])
  }

  lemma {:induction false} LengthReadsBack(n: nat, k: nat)
    requires n < Power(k)
    ensures FromLe(ToLe(n, k)) == n
  {
    if k > 0 {
      LengthReadsBack(n / 256, k - 1);
      assert ToLe(n, k)[1..] == ToLe(n / 256, k - 1);
    }
  }

  lemma {:induction false} BytesReadBack(s: seq<Byte>)
    ensures FromLe(s) < Power(|s|) && ToLe(FromLe(s), |s|) == s
  {
    if s != [] {
      BytesReadBack(s[1..]);
      LowestByte(s[0], FromLe(s[1..]), |s|);
      assert s == [s[0]] + s[1..];
    }
  }

  lemma LowestByte(low: Byte, rest: nat, k: nat)
    requires k > 0 && rest < Power(k - 1)
    ensures low + 256 * rest < Power(k) && ToLe(low + 256 * rest, k) == [low] + ToLe(rest, k - 1)
  {
    var n := low + 256 * rest;
    assert n % 256 == low && n / 256 == rest;
  }

  /** The i-th byte of a number, from the lowest. */
  function ByteAt(n: nat, i: nat): Byte {
    if i == 0 then n % 256 else ByteAt(n / 256, i - 1)
  }

  lemma {:induction false} LowestFirst(n: nat, k: nat, i: nat)
    requires i < k
    ensures ToLe(n, k)[i] == ByteAt(n, i)
  {
    if i > 0 { LowestFirst(n / 256, k - 1, i - 1); }
  }

  lemma WordIsEightBytes()
    ensures SIZE_LIMIT == WORD
  {
    assert Power(8) == 256 * Power(7) && Power(7) == 256 * Power(6) && Power(6) == 256 * Power(5)
           && Power(5) == 256 * Power(4);
    assert Power(4) == 256 * Power(3) && Power(3) == 256 * Power(2) && Power(2) == 256 * Power(1)
           && Power(1) == 256 * Power(0);
  }

  // ---- frames ----

  function Frame(content: seq<Byte>): seq<Byte> {
    ToLe(|content|, SIZE_BYTES) + content
  }

  function Stream(contents: seq<seq<Byte>>): seq<Byte> {
    if contents == [] then [] else Stream(Init(contents)) + Frame(Last(contents))
  }

  ghost predicate Sendable(contents: seq<seq<Byte>>) {
    forall i :: 0 <= i < |contents| ==> |contents[i]| < SIZE_LIMIT
  }

  lemma {:induction false} StreamAppend(a: seq<seq<Byte>>, b: seq<seq<Byte>>)
    ensures Stream(a + b) == Stream(a) + Stream(b)
  {
    if b == [] {
      assert a + b == a;
    } else {
      StreamAppend(a, Init(b));
      assert Init(a + b) == a + Init(b) && Last(a + b) == Last(b);
      assert Stream(a) + Stream(Init(b)) + Frame(Last(b)) == Stream(a) + (Stream(Init(b)) + Frame(Last(b)));
    }
  }

  lemma StreamOne(content: seq<Byte>)
    ensures Stream([content]) == Frame(content)
  {
    assert Init([content]) == [] && [] + Frame(content) == Frame(content);
  }

  lemma StreamFirst(contents: seq<seq<Byte>>)
    requires contents != []
    ensures Stream(contents) == Frame(contents[0]) + Stream(contents[1..])
  {
    assert contents == [contents[0]] + contents[1..];
    StreamAppend([contents[0]], contents[1..]);
    StreamOne(contents[0]);
  }

  lemma FrontsAgree(a: seq<Byte>, b: seq<Byte>, c: seq<Byte>, d: seq<Byte>)
    requires a + b == c + d && |a| == |c|
    ensures a == c && b == d
  {
    assert a == (a + b)[..|a|] && b == (a + b)[|a|..] && c == (c + d)[..|a|] && d == (c + d)[|a|..];
  }

  /** Bytes behind their length can be told from what follows. */
  lemma FramesAgree(size: seq<Byte>, content: seq<Byte>, others: seq<Byte>, header: seq<Byte>, body: seq<Byte>,
                    rest: seq<Byte>)
    requires size + (content + others) == header + (body + rest)
    requires |size| == |header| && |content| == FromLe(size) && |body| == FromLe(header)
    ensures size == header && content == body && others == rest
  {
    FrontsAgree(header, body + rest, size, content + others);
    FrontsAgree(body, rest, content, others);
  }

  lemma StreamBegins(contents: seq<seq<Byte>>)
    requires Sendable(contents) && contents != []
    ensures var size := ToLe(|contents[0]|, SIZE_BYTES);
            && Stream(contents) == size + (contents[0] + Stream(contents[1..]))
            && FromLe(size) == |contents[0]|
  {
    StreamFirst(contents);
    LengthReadsBack(|contents[0]|, SIZE_BYTES);
    SameGrouping(ToLe(|contents[0]|, SIZE_BYTES), contents[0], Stream(contents[1..]));
  }

  lemma SameGrouping(a: seq<Byte>, b: seq<Byte>, c: seq<Byte>)
    ensures a + b + c == a + (b + c)
  {
  }

  /** Eight bytes and as many bytes as they say, at the front of a stream, are its
      first frame. */
  lemma FirstFrameIs(contents: seq<seq<Byte>>, header: seq<Byte>, body: seq<Byte>, rest: seq<Byte>)
    requires Sendable(contents) && Stream(contents) == header + (body + rest)
    requires |header| == SIZE_BYTES && |body| == FromLe(header)
    ensures contents != [] && body == contents[0] && header == ToLe(|body|, SIZE_BYTES) && rest == Stream(contents[1..])
  {
    assert |Stream(contents)| >= SIZE_BYTES;
    StreamBegins(contents);
    FramesAgree(ToLe(|contents[0]|, SIZE_BYTES), contents[0], Stream(contents[1..]), header, body, rest);
  }

  // ---- the receive loop ----

  function DecodedOne(codec: Codec, content: seq<Byte>): seq<Item> {
    match codec.decode(content)
    case None => []
    case Some(x) => [x]
  }

  /** What the receive loop delivers from these bytes when the stream ends then. */
  function Delivered(codec: Codec, bytes: seq<Byte>): seq<Item>
    decreases |bytes|
  {
    if |bytes| < SIZE_BYTES then []
    else
      var end := SIZE_BYTES + FromLe(bytes[..SIZE_BYTES]);
      if |bytes| < end then []
      else DecodedOne(codec, bytes[SIZE_BYTES..end]) + Delivered(codec, bytes[end..])
  }

  /** The bytes begin with the frame of this body: its length in eight bytes, the
      lowest first, and the body. */
  ghost predicate IsFramed(bytes: seq<Byte>, body: seq<Byte>, rest: seq<Byte>) {
    && |body| < WORD && |bytes| == 8 + |body| + |rest|
    && (forall i :: 0 <= i < 8 ==> bytes[i] == ByteAt(|body|, i))
    && bytes[8..8 + |body|] == body && bytes[8 + |body|..] == rest
  }

  lemma FramedIs(bytes: seq<Byte>, body: seq<Byte>, rest: seq<Byte>)
    requires IsFramed(bytes, body, rest)
    ensures |bytes| >= SIZE_BYTES + |body| && FromLe(bytes[..SIZE_BYTES]) == |body|
    ensures body == bytes[SIZE_BYTES..SIZE_BYTES + |body|] && rest == bytes[SIZE_BYTES + |body|..]
  {
    WordIsEightBytes();
    forall i | 0 <= i < SIZE_BYTES
      ensures bytes[i] == ToLe(|body|, SIZE_BYTES)[i]
    {
      LowestFirst(|body|, SIZE_BYTES, i);
    }
    assert bytes[..SIZE_BYTES] == ToLe(|body|, SIZE_BYTES);
    LengthReadsBack(|body|, SIZE_BYTES);
  }

  /** What a task makes of one body. */
  function Received(codec: Codec, body: seq<Byte>): Result<Item, ReceiveError> {
    match codec.decode(body)
    case None => Err(Undecodable)
    case Some(x) => Ok(x)
  }

  datatype ReceiveError = UnexpectedEof | Undecodable

  /** The receiving end of a connection that its peer has closed. */
  class Incoming {
    var pending: seq<Byte>

    constructor (bytes: seq<Byte>)
      ensures pending == bytes
    {
      pending := bytes;
    }

    /** `read_exact`: what is left is lost when it is not enough. */
    method ReadExact(n: nat) returns (r: Result<seq<Byte>, ReceiveError>)
      modifies this
      ensures n <= |old(pending)| ==> r == Ok(old(pending)[..n]) && pending == old(pending)[n..]
      ensures n > |old(pending)| ==> r == Err(UnexpectedEof) && pending == []
    {
      if n > |pending| {
        pending := [];
        return Err(UnexpectedEof);
      }
      r := Ok(pending[..n]);
      pending := pending[n..];
    }

    /** `channel_receive` */
    method ChannelReceive(codec: Codec) returns (r: Result<Item, ReceiveError>)
      modifies this
      ensures r == Err(UnexpectedEof) ==> pending == [] && Delivered(codec, old(pending)) == []
      ensures r == Err(Undecodable) ==> Delivered(codec, old(pending)) == Delivered(codec, pending)
      ensures r.Ok? ==> Delivered(codec, old(pending)) == [r.value] + Delivered(codec, pending)
      ensures r != Err(UnexpectedEof) ==> |pending| < |old(pending)|
      ensures forall body, rest :: IsFramed(old(pending), body, rest) ==> pending == rest && r == Received(codec, body)
    {
      ghost var all := pending;
      var sizeBytes := ReadExact(SIZE_BYTES);
      forall body, rest | IsFramed(all, body, rest)
        ensures |all| >= SIZE_BYTES && FromLe(all[..SIZE_BYTES]) == |body| <= |all| - SIZE_BYTES
      {
        FramedIs(all, body, rest);
      }
      if sizeBytes.Err? {
        return Err(sizeBytes.error);
      }
      var size := FromLe(sizeBytes.value);
      var content := ReadExact(size);
      if content.Err? {
        return Err(content.error);
      }
      assert content.value == all[SIZE_BYTES..SIZE_BYTES + size] && pending == all[SIZE_BYTES + size..];
      forall body, rest | IsFramed(all, body, rest)
        ensures body == content.value && rest == pending
      {
        FramedIs(all, body, rest);
      }
      var item := codec.decode(content.value);
      match item {
        case None => return Err(Undecodable);
        case Some(x) => return Ok(x);
      }
    }
  }

  function Decoded(codec: Codec, contents: seq<seq<Byte>>): seq<Item> {
    if contents == [] then [] else DecodedOne(codec, contents[0]) + Decoded(codec, contents[1..])
  }

  /** Less than a frame delivers nothing. */
  lemma PartOfAFrame(codec: Codec, content: seq<Byte>, bytes: seq<Byte>)
    requires |content| < SIZE_LIMIT && bytes <= Frame(content) && |bytes| < |Frame(content)|
    ensures Delivered(codec, bytes) == []
  {
    if |bytes| >= SIZE_BYTES {
      assert bytes[..SIZE_BYTES] == Frame(content)[..SIZE_BYTES] == ToLe(|content|, SIZE_BYTES);
      LengthReadsBack(|content|, SIZE_BYTES);
    }
  }

  /** A frame at the front delivers its content, if that can be decoded. */
  lemma FrameInFront(codec: Codec, content: seq<Byte>, rest: seq<Byte>)
    requires |content| < SIZE_LIMIT
    ensures Delivered(codec, Frame(content) + rest) == DecodedOne(codec, content) + Delivered(codec, rest)
  {
    var bytes, end := Frame(content) + rest, SIZE_BYTES + |content|;
    assert bytes[..SIZE_BYTES] == ToLe(|content|, SIZE_BYTES);
    LengthReadsBack(|content|, SIZE_BYTES);
    assert bytes[SIZE_BYTES..end] == content && bytes[end..] == rest;
  }

  /** How many frames are complete within the first n bytes. */
  function Complete(contents: seq<seq<Byte>>, n: nat): nat {
    if contents == [] || n < |Frame(contents[0])| then 0
    else 1 + Complete(contents[1..], n - |Frame(contents[0])|)
  }

  lemma {:induction false} CompleteIs(contents: seq<seq<Byte>>, n: nat)
    requires n <= |Stream(contents)|
    ensures var k := Complete(contents, n);
            && k <= |contents| && |Stream(contents[..k])| <= n
            && (k < |contents| ==> n < |Stream(contents[..k + 1])|)
  {
    if contents != [] {
      FramesUpTo(contents, 0);
      StreamFirst(contents);
      var m := n - |Frame(contents[0])|;
      if m >= 0 {
        var k := Complete(contents[1..], m);
        CompleteIs(contents[1..], m);
        FramesUpTo(contents, k);
        if k + 1 < |contents| { FramesUpTo(contents, k + 1); }
      }
    }
  }

  lemma FramesUpTo(contents: seq<seq<Byte>>, k: nat)
    requires k < |contents|
    ensures |Stream(contents[..k + 1])| == |Frame(contents[0])| + |Stream(contents[1..][..k])|
  {
    StreamFirst(contents[..k + 1]);
    assert contents[..k + 1][1..] == contents[1..][..k];
  }

  /** From any prefix of any frames the loop delivers the decodable ones among
      those that are complete, in order; the others neither shift nor stop it. */
  lemma {:induction false} CompleteFramesAreDelivered(codec: Codec, contents: seq<seq<Byte>>, n: nat)
    requires Sendable(contents) && n <= |Stream(contents)|
    ensures Complete(contents, n) <= |contents|
    ensures Delivered(codec, Stream(contents)[..n]) == Decoded(codec, contents[..Complete(contents, n)])
  {
    CompleteIs(contents, n);
    if contents == [] {
    } else if n < |Frame(contents[0])| {
      PartInFront(codec, contents, n);
    } else {
      var m := n - |Frame(contents[0])|;
      FirstDelivered(codec, contents, n);
      CompleteFramesAreDelivered(codec, contents[1..], m);
      DecodedFirst(codec, contents, Complete(contents[1..], m));
    }
  }

  lemma PartInFront(codec: Codec, contents: seq<seq<Byte>>, n: nat)
    requires contents != [] && |contents[0]| < SIZE_LIMIT && n < |Frame(contents[0])|
    ensures n <= |Stream(contents)| && Delivered(codec, Stream(contents)[..n]) == []
  {
    StreamFirst(contents);
    assert Stream(contents)[..n] == Frame(contents[0])[..n];
    PartOfAFrame(codec, contents[0], Stream(contents)[..n]);
  }

  lemma FirstDelivered(codec: Codec, contents: seq<seq<Byte>>, n: nat)
    requires contents != [] && |contents[0]| < SIZE_LIMIT && |Frame(contents[0])| <= n <= |Stream(contents)|
    ensures var others, m := Stream(contents[1..]), n - |Frame(contents[0])|;
            && m <= |others|
            && Delivered(codec, Stream(contents)[..n]) == DecodedOne(codec, contents[0]) + Delivered(codec, others[..m])
  {
    StreamFirst(contents);
    CutBehind(Frame(contents[0]), Stream(contents[1..]), n);
    FrameInFront(codec, contents[0], Stream(contents[1..])[..n - |Frame(contents[0])|]);
  }

  lemma DecodedFirst(codec: Codec, contents: seq<seq<Byte>>, k: nat)
    requires k < |contents|
    ensures Decoded(codec, contents[..k + 1]) == DecodedOne(codec, contents[0]) + Decoded(codec, contents[1..][..k])
  {
    assert contents[..k + 1][1..] == contents[1..][..k];
  }

  /** What is sent is delivered: the stream of the frames of any encodable items
      delivers these items. */
  lemma {:induction false} SentIsDelivered(codec: Codec, items: seq<Item>)
    requires Sound(codec) && forall i :: 0 <= i < |items| ==> codec.encode(items[i]).Some?
    ensures Delivered(codec, FramesOf(codec, items)) == items
  {
    if items != [] {
      var content := codec.encode(items[0]).value;
      SentIsDelivered(codec, items[1..]);
      FrameInFront(codec, content, FramesOf(codec, items[1..]));
      assert codec.decode(content) == Some(items[0]);
      assert items == [items[0]] + items[1..];
    }
  }

  /** The frames of the items, one behind the other. */
  function FramesOf(codec: Codec, items: seq<Item>): seq<Byte>
    requires forall i :: 0 <= i < |items| ==> codec.encode(items[i]).Some?
  {
    if items == [] then [] else Frame(codec.encode(items[0]).value) + FramesOf(codec, items[1..])
  }

  /** A frame is framed. */
  lemma FrameIsFramed(content: seq<Byte>, rest: seq<Byte>)
    requires |content| < SIZE_LIMIT
    ensures IsFramed(Frame(content) + rest, content, rest)
  {
    WordIsEightBytes();
    var bytes := Frame(content) + rest;
    forall i | 0 <= i < 8
      ensures bytes[i] == ByteAt(|content|, i)
    {
      LowestFirst(|content|, SIZE_BYTES, i);
    }
  }

  lemma CutBehind(a: seq<Byte>, b: seq<Byte>, n: nat)
    requires |a| <= n <= |a + b|
    ensures (a + b)[..n] == a + b[..n - |a|]
  {
  }

  // ---- the sender ----

  /** The sending end of a connection. Each write is given how many bytes the
      connection takes before it fails; a later write may succeed again. */
  class Outgoing {
    var written: seq<Byte>

    constructor ()
      ensures written == []
    {
      written := [];
    }

    /** `write_all`, which may have written some of the bytes when it fails. */
    method WriteAll(bytes: seq<Byte>, takes: nat) returns (ok: bool)
      modifies this
      ensures ok <==> |bytes| <= takes
      ensures written == old(written) + if ok then bytes else bytes[..takes]
    {
      ok := |bytes| <= takes;
      written := written + if ok then bytes else bytes[..takes];
    }

    /** `channel_send`: a whole frame is written; or, if the connection fails, a part
        of it; or nothing, if encoding fails. The stream is used again whatever
        happened. */
    method ChannelSend(codec: Codec, item: Item, takes: nat) returns (ok: bool)
      modifies this
      ensures codec.encode(item).None? ==> !ok && written == old(written)
      ensures codec.encode(item).Some? ==>
                var frame := Frame(codec.encode(item).value);
                && (ok <==> |frame| <= takes)
                && written == old(written) + if ok then frame else frame[..takes]
    {
      var content := codec.encode(item);
      if content.None? {
        return false;
      }
      ghost var frame := Frame(content.value);
      var sizeOk := WriteAll(ToLe(|content.value|, SIZE_BYTES), takes);
      if !sizeOk {
        assert frame[..takes] == ToLe(|content.value|, SIZE_BYTES)[..takes];
        return false;
      }
      ok := WriteAll(content.value, takes - SIZE_BYTES);
      assert !ok ==> frame[..takes] == ToLe(|content.value|, SIZE_BYTES) + content.value[..takes - SIZE_BYTES];
    }
  }

  // ---- what failing writes do to the framing ----

  /** One `channel_send` whose item could be encoded, and how many bytes of its frame
      were written. */
  datatype Attempt = Attempt(content: seq<Byte>, sent: nat)

  predicate IsPartial(a: Attempt) {
    0 < a.sent < |Frame(a.content)|
  }

  ghost predicate AreAttempts(attempts: seq<Attempt>) {
    forall i :: 0 <= i < |attempts| ==>
      attempts[i].sent <= |Frame(attempts[i].content)| && |attempts[i].content| < SIZE_LIMIT
  }

  function Bytes(attempts: seq<Attempt>): seq<Byte>
    requires AreAttempts(attempts)
  {
    if attempts == [] then []
    else
      assert Last(attempts) == attempts[|attempts| - 1];
      BeforeLast(attempts);
      Bytes(Init(attempts)) + Frame(Last(attempts).content)[..Last(attempts).sent]
  }

  lemma BeforeLast(attempts: seq<Attempt>)
    requires attempts != [] && AreAttempts(attempts)
    ensures AreAttempts(Init(attempts))
  {
    assert forall i :: 0 <= i < |Init(attempts)| ==> Init(attempts)[i] == attempts[i];
  }

  /** The contents that were written whole. */
  function Wholes(attempts: seq<Attempt>): seq<seq<Byte>> {
    if attempts == [] then []
    else
      var a := Last(attempts);
      Wholes(Init(attempts)) + if a.sent == |Frame(a.content)| then [a.content] else []
  }

  /** All that has been written is whole frames. */
  ghost predicate AtBoundary(attempts: seq<Attempt>)
    requires AreAttempts(attempts)
  {
    Bytes(attempts) == Stream(Wholes(attempts))
  }

  predicate HasPartial(attempts: seq<Attempt>) {
    exists i :: 0 <= i < |attempts| && IsPartial(attempts[i])
  }

  lemma PartialOrBefore(attempts: seq<Attempt>)
    requires attempts != []
    ensures HasPartial(attempts) <==> HasPartial(Init(attempts)) || IsPartial(Last(attempts))
  {
    assert forall i :: 0 <= i < |Init(attempts)| ==> Init(attempts)[i] == attempts[i];
    assert Last(attempts) == attempts[|attempts| - 1];
  }

  lemma WholeSnoc(contents: seq<seq<Byte>>, content: seq<Byte>)
    ensures Stream(contents + [content]) == Stream(contents) + Frame(content)
  {
    assert Init(contents + [content]) == contents;
  }

  /** A stream is at a boundary exactly when no frame of it was cut short: every cut
      makes it longer than its whole frames. */
  lemma {:induction false} BoundaryExactly(attempts: seq<Attempt>)
    requires AreAttempts(attempts)
    ensures AtBoundary(attempts) <==> !HasPartial(attempts)
    ensures |Bytes(attempts)| >= |Stream(Wholes(attempts))|
    ensures HasPartial(attempts) ==> |Bytes(attempts)| > |Stream(Wholes(attempts))|
  {
    if attempts != [] {
      var a := Last(attempts);
      assert a == attempts[|attempts| - 1];
      BeforeLast(attempts);
      BoundaryExactly(Init(attempts));
      PartialOrBefore(attempts);
      BoundaryOneMore(Bytes(Init(attempts)), Wholes(Init(attempts)), a);
    }
  }

  lemma BoundaryOneMore(bytes: seq<Byte>, contents: seq<seq<Byte>>, a: Attempt)
    requires a.sent <= |Frame(a.content)|
    ensures var more := bytes + Frame(a.content)[..a.sent];
            var stream := Stream(contents + if a.sent == |Frame(a.content)| then [a.content] else []);
            && |more| - |stream| == |bytes| - |Stream(contents)| + (if IsPartial(a) then a.sent else 0)
            && (bytes == Stream(contents) && !IsPartial(a) ==> more == stream)
  {
    WholeSnoc(contents, a.content);
    assert contents + [] == contents;
    assert Frame(a.content)[..|Frame(a.content)|] == Frame(a.content) && bytes + [] == bytes;
    if a.sent == 0 {
      assert Frame(a.content)[..0] == [] && |Frame(a.content)| >= SIZE_BYTES;
    }
  }

  /** Every frame of which anything is written begins where a frame should. */
  ghost predicate KeepsFraming(attempts: seq<Attempt>)
    requires AreAttempts(attempts)
  {
    forall i :: 0 <= i < |attempts| && attempts[i].sent > 0 ==> AtBoundary(attempts[..i])
  }

  predicate QuietAfterPartial(attempts: seq<Attempt>) {
    forall i, j :: 0 <= i < j < |attempts| && IsPartial(attempts[i]) ==> attempts[j].sent == 0
  }

  /** Framing survives exactly when nothing is written after a frame was cut short. */
  lemma FramingSurvivesExactly(attempts: seq<Attempt>)
    requires AreAttempts(attempts)
    ensures KeepsFraming(attempts) <==> QuietAfterPartial(attempts)
  {
    forall i | 0 <= i < |attempts|
      ensures AtBoundary(attempts[..i]) <==> forall k :: 0 <= k < i ==> !IsPartial(attempts[k])
    {
      BoundaryExactly(attempts[..i]);
      assert forall k :: 0 <= k < i ==> attempts[..i][k] == attempts[k];
    }
  }

  /** Whole frames, and less than one behind them. */
  lemma {:induction false} WholeFramesAreDelivered(codec: Codec, contents: seq<seq<Byte>>, content: seq<Byte>,
                                                  sent: nat)
    requires Sendable(contents) && |content| < SIZE_LIMIT && sent < |Frame(content)|
    ensures Delivered(codec, Stream(contents) + Frame(content)[..sent]) == Decoded(codec, contents)
  {
    var part := Frame(content)[..sent];
    if contents == [] {
      assert [] + part == part;
      PartOfAFrame(codec, content, part);
    } else {
      StreamFirst(contents);
      SameGrouping(Frame(contents[0]), Stream(contents[1..]), part);
      FrameInFront(codec, contents[0], Stream(contents[1..]) + part);
      WholeFramesAreDelivered(codec, contents[1..], content, sent);
    }
  }

  lemma {:induction false} WholesAreSendable(attempts: seq<Attempt>)
    requires AreAttempts(attempts)
    ensures Sendable(Wholes(attempts))
  {
    if attempts != [] {
      BeforeLast(attempts);
      WholesAreSendable(Init(attempts));
      assert Last(attempts) == attempts[|attempts| - 1];
    }
  }

  /** And then the receive loop delivers what was written whole. */
  lemma {:induction false} SurvivingFramesAreDelivered(codec: Codec, attempts: seq<Attempt>)
    requires AreAttempts(attempts) && QuietAfterPartial(attempts)
    ensures Delivered(codec, Bytes(attempts)) == Decoded(codec, Wholes(attempts))
  {
    WholesAreSendable(attempts);
    if !HasPartial(attempts) {
      BoundaryExactly(attempts);
      assert Stream(Wholes(attempts)) + Frame([])[..0] == Bytes(attempts);
      WholeFramesAreDelivered(codec, Wholes(attempts), [], 0);
    } else {
      var a, before := Last(attempts), Init(attempts);
      BeforeLast(attempts);
      PartialOrBefore(attempts);
      assert a == attempts[|attempts| - 1] && forall i :: 0 <= i < |before| ==> before[i] == attempts[i];
      if HasPartial(before) {
        assert a.sent == 0 && Bytes(before) + Frame(a.content)[..0] == Bytes(before);
        assert Wholes(before) + [] == Wholes(before);
        SurvivingFramesAreDelivered(codec, before);
      } else {
        BoundaryExactly(before);
        assert Wholes(before) + [] == Wholes(before);
        WholeFramesAreDelivered(codec, Wholes(before), a.content, a.sent);
      }
    }
  }

  /** It does not survive a write that fails for the time being: of two frames, the
      first without its one byte of content, the loop makes one that was never
      sent, and loses the second. */
  lemma TransientFailureMisaligns(codec: Codec, content: seq<Byte>)
    requires |content| == 1
    ensures var attempts := [Attempt(content, SIZE_BYTES), Attempt([], SIZE_BYTES)];
            && AreAttempts(attempts) && Wholes(attempts) == [[]]
            && Delivered(codec, Bytes(attempts)) == DecodedOne(codec, [0])
  {
    var a, b := Attempt(content, SIZE_BYTES), Attempt([], SIZE_BYTES);
    var one, none := ToLe(1, SIZE_BYTES), ToLe(0, SIZE_BYTES);
    HeaderAlone(content);
    HeaderAlone([]);
    BytesOfTwo(a, b);
    LengthReadsBack(1, SIZE_BYTES);
    assert none[0] == 0;
    OneByteBorrowed(codec, one, none);
  }

  lemma HeaderAlone(content: seq<Byte>)
    ensures Frame(content)[..SIZE_BYTES] == ToLe(|content|, SIZE_BYTES)
    ensures |Frame(content)| == SIZE_BYTES + |content|
  {
  }

  lemma BytesOfTwo(a: Attempt, b: Attempt)
    requires a.sent <= |Frame(a.content)| && |a.content| < SIZE_LIMIT
    requires b.sent <= |Frame(b.content)| && |b.content| < SIZE_LIMIT
    ensures Bytes([a, b]) == Frame(a.content)[..a.sent] + Frame(b.content)[..b.sent]
    ensures a.sent < |Frame(a.content)| && b.sent == |Frame(b.content)| ==> Wholes([a, b]) == [b.content]
  {
    assert Init([a, b]) == [a] && Init([a]) == [];
    BeforeLast([a, b]);
    assert Bytes([a]) == [] + Frame(a.content)[..a.sent];
    assert a.sent < |Frame(a.content)| ==> Wholes([a]) == [] + [];
  }

  lemma OneByteBorrowed(codec: Codec, one: seq<Byte>, next: seq<Byte>)
    requires |one| == SIZE_BYTES == |next| && FromLe(one) == 1
    ensures Delivered(codec, one + next) == DecodedOne(codec, [next[0]])
  {
    var bytes := one + next;
    assert bytes[..SIZE_BYTES] == one && bytes[SIZE_BYTES..SIZE_BYTES + 1] == [next[0]];
    assert |bytes[SIZE_BYTES + 1..]| < SIZE_BYTES;
    assert DecodedOne(codec, [next[0]]) + [] == DecodedOne(codec, [next[0]]);
  }
}
