/**
 The codec that turns the bytes of a peer into messages.

 A read from the stream either gives all bytes asked for or fails and takes none.
 */
module Codec {
  import opened Collections
  import opened Frames

  datatype State<H> =
    | Idle
    | Known(kind: Byte, len: nat)
    | Foreigner(len: nat, kind: Byte)
    | BlockHeaders(bytesLeft: nat, itemsLeft: nat, headers: seq<H>)
    | Attached(left: nat)

  function Min(a: nat, b: nat): nat { if a <= b then a else b }

  // How many bytes the next item needs at most.
  function NextLen<H>(st: State<H>): nat {
    match st
    case Idle => MSG_HEADER_LEN
    case Known(kind, len) => if kind == HEADERS then Min(len, 2) else len
    case Foreigner(len, _) => len
    case BlockHeaders(bytesLeft, _, _) => Min(bytesLeft, MAX_HEADER_BYTES)
    case Attached(left) => Min(left, CHUNK_BYTES)
  }

  datatype Step<H, M> = Step(state: State<H>, buffer: seq<Byte>, reply: Option<Reply<H, M>>)

  function HandleIdle<H, M>(proto: Proto<H, M>, buffer: seq<Byte>): Step<H, M>
    requires |buffer| >= MSG_HEADER_LEN
  {
    var rest := buffer[MSG_HEADER_LEN..];
    var kind, len := buffer[2], FromBe(buffer[3..MSG_HEADER_LEN]);
    if buffer[0] != proto.magic0 || buffer[1] != proto.magic1 || len > 4 * proto.maxLen(kind)
    then Step(Idle, rest, Some(BadHeader))
    else Step(if proto.known(kind) then Known(kind, len) else Foreigner(len, kind), rest, None)
  }

  function HandleList<H, M>(len: nat, buffer: seq<Byte>): Step<H, M>
    requires |buffer| >= Min(len, 2)
  {
    if len < 2 then Step(Known(HEADERS, len), buffer[len..], Some(BadHeader))
    else Step(BlockHeaders(len - 2, FromBe(buffer[..2]), []), buffer[2..], None)
  }

  // One header off the front of the buffer.
  function HandleItem<H, M>(proto: Proto<H, M>, bytesLeft: nat, itemsLeft: nat, headers: seq<H>,
                            buffer: seq<Byte>): Step<H, M> {
    if bytesLeft == 0 then Step(Idle, buffer, Some(BadMessage))
    else match proto.dec(buffer)
      case None => Step(BlockHeaders(bytesLeft, itemsLeft, headers), buffer, Some(BadHeader))
      case Some(x) =>
        if x.1 > |buffer| || itemsLeft == 0
          then Step(BlockHeaders(bytesLeft, itemsLeft, headers), buffer, Some(BadHeader))
        else Took(if bytesLeft >= x.1 then bytesLeft - x.1 else 0, itemsLeft - 1, headers + [x.0], buffer[x.1..])
  }

  // After a header was taken: hand out a full batch or the last one.
  function Took<H, M>(bytesLeft: nat, itemsLeft: nat, headers: seq<H>, buffer: seq<Byte>): Step<H, M> {
    if itemsLeft == 0 then Step(Idle, buffer, Some(if bytesLeft > 0 then BadMessage else Headers(headers, 0)))
    else if |headers| == HEADER_BATCH_SIZE then
      Step(BlockHeaders(bytesLeft, itemsLeft, []), buffer, Some(Headers(headers, itemsLeft)))
    else Step(BlockHeaders(bytesLeft, itemsLeft, headers), buffer, None)
  }

  function HandleChunk<H, M>(left: nat, buffer: seq<Byte>): Step<H, M>
    requires |buffer| >= Min(left, CHUNK_BYTES)
  {
    var n := Min(left, CHUNK_BYTES);
    Step(if left == n then Idle else Attached(left - n), buffer[n..], Some(Attachment(buffer[..n], left - n)))
  }

  // What becomes of the item in the buffer.
  function Handle<H, M>(proto: Proto<H, M>, st: State<H>, buffer: seq<Byte>): Step<H, M>
    requires |buffer| >= NextLen(st)
  {
    match st
    case Idle => HandleIdle(proto, buffer)
    case Known(kind, len) =>
      if kind == HEADERS then HandleList(len, buffer)
      else Step(Idle, buffer[len..], Some(Message(kind, proto.decode(kind, buffer[..len]))))
    case Foreigner(len, kind) => Step(Idle, buffer[len..], Some(Unknown(kind)))
    case BlockHeaders(bytesLeft, itemsLeft, headers) => HandleItem(proto, bytesLeft, itemsLeft, headers, buffer)
    case Attached(left) => HandleChunk(left, buffer)
  }

  // ----- what the state stands for -----

  // The part of a frame not yet handled, and the frames after it.
  datatype Cur<H> = Between | Within(frame: Frame<H>) | InList(left: seq<H>) | InRaw(bytes: seq<Byte>)

  datatype View<H> = View(cur: Cur<H>, pending: seq<Frame<H>>)

  ghost function CurBytes<H, M>(proto: Proto<H, M>, cur: Cur<H>): seq<Byte> {
    match cur
    case Between => []
    case Within(f) => Payload(proto, f)
    case InList(left) => EncAll(proto, left)
    case InRaw(bytes) => bytes
  }

  ghost function Bytes<H, M>(proto: Proto<H, M>, view: View<H>): seq<Byte> {
    CurBytes(proto, view.cur) + Encode(proto, view.pending)
  }

  ghost predicate Matches<H, M>(proto: Proto<H, M>, st: State<H>, cur: Cur<H>) {
    match st
    case Idle => cur.Between?
    case Known(kind, len) =>
      && cur.Within? && !cur.frame.Raw? && !cur.frame.Foreign? && WellFormed(proto, cur.frame)
      && kind == Kind(cur.frame) && len == |Payload(proto, cur.frame)|
    case Foreigner(len, kind) =>
      cur.Within? && cur.frame.Foreign? && kind == cur.frame.kind && len == |cur.frame.bytes|
    case BlockHeaders(bytesLeft, itemsLeft, headers) =>
      && cur.InList? && bytesLeft == |EncAll(proto, cur.left)| && itemsLeft == |cur.left|
      && |headers| < HEADER_BATCH_SIZE && (cur.left == [] ==> headers == [])
    case Attached(left) => cur.InRaw? && left == |cur.bytes|
  }

  // The replies still to come for the current frame.
  ghost function CurReplies<H, M>(proto: Proto<H, M>, st: State<H>, cur: Cur<H>): seq<Reply<H, M>> {
    match cur
    case Between => []
    case Within(f) => Replies(proto, f)
    case InList(left) =>
      if left == [] || !st.BlockHeaders? then [BadMessage] else Batches(st.headers + left)
    case InRaw(bytes) => Chunks(bytes)
  }

  ghost function Todo<H, M>(proto: Proto<H, M>, st: State<H>, view: View<H>): seq<Reply<H, M>> {
    CurReplies(proto, st, view.cur) + AllReplies(proto, view.pending)
  }

  // Buffer and stream hold what the view says; only a list of headers leaves anything in the
  // buffer, and never bytes from beyond the list.
  ghost predicate InSync<H, M>(proto: Proto<H, M>, st: State<H>, buffer: seq<Byte>, rest: seq<Byte>, view: View<H>) {
    && Matches(proto, st, view.cur) && AllWellFormed(proto, view.pending)
    && buffer + rest == Bytes(proto, view)
    && (if st.BlockHeaders? then |buffer| <= st.bytesLeft else buffer == [])
  }

  // The buffer has been filled for the next item.
  ghost predicate Filled<H, M>(proto: Proto<H, M>, st: State<H>, buffer: seq<Byte>, rest: seq<Byte>, view: View<H>) {
    && Matches(proto, st, view.cur) && AllWellFormed(proto, view.pending)
    && buffer + rest == Bytes(proto, view)
    && |buffer| >= NextLen(st)
    && (if st.BlockHeaders? then |buffer| <= st.bytesLeft else |buffer| == NextLen(st))
  }

  // A step answers with the next reply to come, or with none.
  ghost predicate Answers<H, M>(proto: Proto<H, M>, st: State<H>, view: View<H>, step: Step<H, M>, view': View<H>) {
    Todo(proto, st, view) ==
      (if step.reply.Some? then [step.reply.value] else []) + Todo(proto, step.state, view')
  }

  // How far a state is from its next reply.
  ghost function Rank<H>(st: State<H>): nat {
    match st
    case Idle => Limit(2) + 2
    case Known(_, _) => Limit(2) + 1
    case BlockHeaders(_, itemsLeft, _) => itemsLeft
    case _ => 0
  }

  // A step on a filled buffer leaves all in sync and answers, or comes closer to an answer.
  ghost predicate Steps<H, M>(proto: Proto<H, M>, st: State<H>, buffer: seq<Byte>, rest: seq<Byte>, view: View<H>,
                              view': View<H>)
    requires |buffer| >= NextLen(st)
  {
    var step := Handle(proto, st, buffer);
    && InSync(proto, step.state, step.buffer, rest, view')
    && Answers(proto, st, view, step, view')
    && (step.reply.None? ==> Rank(step.state) < Rank(st) && !step.state.Idle?)
    && step.reply != Some(IoError)
  }

  // What is left to handle after a step.
  ghost function NextView<H>(st: State<H>, view: View<H>): View<H> {
    match view.cur
    case Between => if view.pending == [] then view else View(Within(view.pending[0]), view.pending[1..])
    case Within(f) => View(if f.HeaderList? then InList(f.items) else Between, view.pending)
    case InList(left) => View(if |left| <= 1 then Between else InList(left[1..]), view.pending)
    case InRaw(bytes) =>
      View(if |bytes| <= CHUNK_BYTES then Between else InRaw(bytes[CHUNK_BYTES..]), view.pending)
  }

  // The attachment announced by the frame at hand, and by a reply.
  ghost function CurOwes<H, M>(proto: Proto<H, M>, cur: Cur<H>): Option<nat> {
    if cur.Within? then Announces(proto, cur.frame) else None
  }

  function Owes<H, M>(proto: Proto<H, M>, r: Reply<H, M>): Option<nat> {
    if r.Message? && r.body.Some? then proto.attaches(r.body.value) else None
  }

  ghost function OwedAfter<H, M>(proto: Proto<H, M>, reply: Option<Reply<H, M>>, cur: Cur<H>): Option<nat> {
    if reply.Some? && reply.value.Message? then Owes(proto, reply.value) else CurOwes(proto, cur)
  }

  lemma Assoc<T>(a: seq<T>, b: seq<T>, c: seq<T>)
    ensures (a + b) + c == a + (b + c)
  {
  }

  lemma SplitFront<T>(a: seq<T>, b: seq<T>, c: seq<T>, d: seq<T>)
    requires a + b == c + d && |a| == |c|
    ensures a == c && b == d
  {
    assert a == (a + b)[..|a|] == (c + d)[..|c|] == c;
    assert b == (a + b)[|a|..] == (c + d)[|c|..] == d;
  }

  lemma SplitLonger<T>(a: seq<T>, b: seq<T>, c: seq<T>, d: seq<T>)
    requires a + b == c + d && |a| >= |c|
    ensures a == c + a[|c|..] && a[|c|..] + b == d
  {
    SplitFront(a[..|c|], a[|c|..] + b, c, d) by { assert a[..|c|] + (a[|c|..] + b) == a + b; }
  }

  // ----- every step keeps in sync -----

  // The state in which the payload of a frame is expected.
  ghost function Expecting<H, M>(proto: Proto<H, M>, f: Frame<H>): State<H>
    requires !f.Raw?
  {
    if f.Foreign? then Foreigner(|Payload(proto, f)|, Kind(f)) else Known(Kind(f), |Payload(proto, f)|)
  }

  lemma ReadHead<H(!new), M>(proto: Proto<H, M>, f: Frame<H>)
    requires Sound(proto) && WellFormed(proto, f) && !f.Raw?
    ensures HandleIdle(proto, Head(proto, Kind(f), |Payload(proto, f)|)) == Step(Expecting(proto, f), [], None)
  {
    var n := |Payload(proto, f)|;
    var head := Head(proto, Kind(f), n);
    BeRoundTrip(n, 8);
    assert head[3..MSG_HEADER_LEN] == Be(n, 8);
    assert head[MSG_HEADER_LEN..] == [];
  }

  // A head is refused for wrong magic bytes or a length above the limit, and for nothing else.
  lemma AnyHead<H, M>(proto: Proto<H, M>, a: Byte, b: Byte, kind: Byte, len: nat, rest: seq<Byte>)
    requires len < Limit(8)
    ensures Handle(proto, Idle, [a, b, kind] + Be(len, 8) + rest) ==
      if a != proto.magic0 || b != proto.magic1 || len > 4 * proto.maxLen(kind) then Step(Idle, rest, Some(BadHeader))
      else Step(if proto.known(kind) then Known(kind, len) else Foreigner(len, kind), rest, None)
  {
    var buffer := [a, b, kind] + Be(len, 8) + rest;
    BeRoundTrip(len, 8);
    assert buffer[3..MSG_HEADER_LEN] == Be(len, 8) && buffer[MSG_HEADER_LEN..] == rest;
  }

  // A list of headers is refused if it has no room for a count, ends before its count or goes on
  // after it, or holds what is not a header.  A last header may go on beyond the length announced.
  lemma BadLists<H, M>(proto: Proto<H, M>, n: nat, bytesLeft: nat, headers: seq<H>, buffer: seq<Byte>, h: H, size: nat)
    requires |buffer| >= MAX_HEADER_BYTES
    ensures n < 2 ==> Handle(proto, Known(HEADERS, n), buffer) == Step(Known(HEADERS, n), buffer[n..], Some(BadHeader))
    ensures Handle(proto, BlockHeaders(0, n, headers), buffer) == Step(Idle, buffer, Some(BadMessage))
    ensures proto.dec(buffer) == Some((h, size)) && size < bytesLeft && size <= |buffer| ==>
              Handle(proto, BlockHeaders(bytesLeft, 1, headers), buffer) == Step(Idle, buffer[size..], Some(BadMessage))
    ensures proto.dec(buffer) == None && bytesLeft > 0 ==>
              var st := BlockHeaders(bytesLeft, n, headers);
              Handle(proto, st, buffer).state == st && Handle(proto, st, buffer).reply == Some(BadHeader)
    ensures proto.dec(buffer) == Some((h, size)) && 0 < bytesLeft <= size <= |buffer| ==>
              Handle(proto, BlockHeaders(bytesLeft, 1, headers), buffer) ==
              Step(Idle, buffer[size..], Some(Headers(headers + [h], 0)))
  {
  }

  lemma FirstFrame<H, M>(proto: Proto<H, M>, pending: seq<Frame<H>>, buffer: seq<Byte>, rest: seq<Byte>)
    requires pending != [] && !pending[0].Raw? && |buffer| == MSG_HEADER_LEN && buffer + rest == Encode(proto, pending)
    ensures var f := pending[0];
      buffer == Head(proto, Kind(f), |Payload(proto, f)|) && rest == Payload(proto, f) + Encode(proto, pending[1..])
  {
    var f := pending[0];
    var p, tail := Payload(proto, f), Encode(proto, pending[1..]);
    var head := Head(proto, Kind(f), |p|);
    assert Encode(proto, pending) == (head + p) + tail;
    Assoc(head, p, tail);
    SplitFront(buffer, rest, head, p + tail);
  }

  lemma StepIdle<H(!new), M>(proto: Proto<H, M>, buffer: seq<Byte>, rest: seq<Byte>, view: View<H>)
    returns (view': View<H>)
    requires Sound(proto) && Filled(proto, Idle, buffer, rest, view)
    requires view.pending != [] && !view.pending[0].Raw?
    ensures Steps(proto, Idle, buffer, rest, view, view') && view' == NextView(Idle, view)
  {
    var f, fs := view.pending[0], view.pending[1..];
    assert Bytes(proto, view) == Encode(proto, view.pending);
    FirstFrame(proto, view.pending, buffer, rest);
    ReadHead(proto, f);
    view' := View(Within(f), fs);
    IdleAnswers(proto, view, view');
  }

  lemma IdleAnswers<H, M>(proto: Proto<H, M>, view: View<H>, view': View<H>)
    requires view.cur.Between? && view.pending != [] && !view.pending[0].Raw?
    requires view' == View(Within(view.pending[0]), view.pending[1..])
    ensures Answers(proto, Idle, view, Step(Expecting(proto, view.pending[0]), [], None), view')
  {
    assert Todo(proto, Idle, view) == AllReplies(proto, view.pending);
  }

  lemma StepBody<H(!new), M>(proto: Proto<H, M>, st: State<H>, buffer: seq<Byte>, rest: seq<Byte>, view: View<H>)
    returns (view': View<H>)
    requires Sound(proto) && Filled(proto, st, buffer, rest, view)
    requires st.Foreigner? || (st.Known? && st.kind != HEADERS)
    ensures Steps(proto, st, buffer, rest, view, view') && view' == NextView(st, view)
  {
    view' := View(Between, view.pending);
    SplitFront(buffer, rest, Payload(proto, view.cur.frame), Encode(proto, view.pending));
    assert buffer[..st.len] == buffer && buffer[st.len..] == [];
    assert [] + rest == Bytes(proto, view');
    assert Todo(proto, Idle, view') == AllReplies(proto, view.pending);
  }

  lemma StepList<H(!new), M>(proto: Proto<H, M>, st: State<H>, buffer: seq<Byte>, rest: seq<Byte>, view: View<H>)
    returns (view': View<H>)
    requires Sound(proto) && Filled(proto, st, buffer, rest, view) && st.Known? && st.kind == HEADERS
    ensures Steps(proto, st, buffer, rest, view, view') && view' == NextView(st, view)
  {
    var items := view.cur.frame.items;
    view' := View(InList(items), view.pending);
    var count, enc, tail := Be(|items|, 2), EncAll(proto, items), Encode(proto, view.pending);
    Assoc(count, enc, tail);
    SplitFront(buffer, rest, count, enc + tail);
    ReadCount<H, M>(items, st.len, buffer);
    ListAnswers(proto, st, view, view', st.len - 2);
  }

  lemma ReadCount<H, M>(items: seq<H>, len: nat, buffer: seq<Byte>)
    requires |items| < Limit(2) && buffer == Be(|items|, 2) && len >= 2
    ensures var step: Step<H, M> := HandleList(len, buffer);
      step == Step(BlockHeaders(len - 2, |items|, []), [], None)
  {
    BeRoundTrip(|items|, 2);
    assert buffer[..2] == buffer;
  }

  lemma ListAnswers<H, M>(proto: Proto<H, M>, st: State<H>, view: View<H>, view': View<H>, bytesLeft: nat)
    requires view.cur.Within? && view.cur.frame.HeaderList? && view' == View(InList(view.cur.frame.items), view.pending)
    ensures Answers(proto, st, view, Step(BlockHeaders(bytesLeft, |view.cur.frame.items|, []), [], None), view')
  {
    var items := view.cur.frame.items;
    var none: seq<H> := [];
    assert none + items == items;
  }

  lemma StepChunk<H(!new), M>(proto: Proto<H, M>, st: State<H>, buffer: seq<Byte>, rest: seq<Byte>, view: View<H>)
    returns (view': View<H>)
    requires Sound(proto) && Filled(proto, st, buffer, rest, view) && st.Attached?
    ensures Steps(proto, st, buffer, rest, view, view') && view' == NextView(st, view)
  {
    var bytes, n := view.cur.bytes, NextLen(st);
    view' := View(if n == st.left then Between else InRaw(bytes[n..]), view.pending);
    RestOfRaw(bytes, n, Encode(proto, view.pending), buffer, rest);
    ChunkAnswers(proto, st, n, bytes, view, view');
  }

  lemma RestOfRaw(bytes: seq<Byte>, n: nat, tail: seq<Byte>, buffer: seq<Byte>, rest: seq<Byte>)
    requires n == |buffer| <= |bytes| && buffer + rest == bytes + tail
    ensures buffer == bytes[..n] && rest == bytes[n..] + tail
  {
    assert bytes + tail == bytes[..n] + (bytes[n..] + tail);
    SplitFront(buffer, rest, bytes[..n], bytes[n..] + tail);
  }

  lemma ChunkAnswers<H, M>(proto: Proto<H, M>, st: State<H>, n: nat, bytes: seq<Byte>, view: View<H>, view': View<H>)
    requires st == Attached(|bytes|) && n == Min(|bytes|, CHUNK_BYTES) && view == View(InRaw(bytes), view.pending)
    requires view' == View(if n == |bytes| then Between else InRaw(bytes[n..]), view.pending)
    ensures Answers(proto, st, view, HandleChunk(|bytes|, bytes[..n]), view')
  {
    assert bytes[..n][..n] == bytes[..n];
    if n == |bytes| {
      assert bytes[..n] == bytes;
    } else {
      Assoc([Attachment(bytes[..n], |bytes| - n)], Chunks<H, M>(bytes[n..]), AllReplies(proto, view.pending));
    }
  }

  // The header at the front of the buffer, with what is left of buffer and list after it.
  lemma ReadItem<H(!new), M>(proto: Proto<H, M>, left: seq<H>, tail: seq<Byte>, buffer: seq<Byte>, rest: seq<Byte>)
    requires Sound(proto) && left != [] && buffer + rest == EncAll(proto, left) + tail
    requires Min(|EncAll(proto, left)|, MAX_HEADER_BYTES) <= |buffer| <= |EncAll(proto, left)|
    ensures var n := |proto.enc(left[0])|;
      && 0 < n <= |buffer| && proto.dec(buffer) == Some((left[0], n))
      && |EncAll(proto, left)| == n + |EncAll(proto, left[1..])|
      && buffer[n..] + rest == EncAll(proto, left[1..]) + tail
  {
    var h, more := proto.enc(left[0]), EncAll(proto, left[1..]);
    assert 0 < |h| <= MAX_HEADER_BYTES;
    Assoc(h, more, tail);
    SplitLonger(buffer, rest, h, more + tail);
    assert proto.dec(h + buffer[|h|..]) == Some((left[0], |h|));
  }

  // How a taken header moves the batches on.
  lemma BatchStep<H, M>(headers: seq<H>, left: seq<H>)
    requires |headers| < HEADER_BATCH_SIZE && left != []
    ensures var hs, rest, all: seq<Reply<H, M>> := headers + [left[0]], left[1..], Batches(headers + left);
      if rest == [] then all == [Headers(hs, 0)]
      else if |hs| == HEADER_BATCH_SIZE then all == [Headers(hs, |rest|)] + Batches([] + rest)
      else all == Batches(hs + rest)
  {
    var hs, rest := headers + [left[0]], left[1..];
    assert headers + left == hs + rest;
    assert (hs + rest)[..|hs|] == hs && (hs + rest)[|hs|..] == [] + rest;
    if rest == [] { assert hs + rest == hs; }
  }

  lemma StepItem<H(!new), M>(proto: Proto<H, M>, st: State<H>, buffer: seq<Byte>, rest: seq<Byte>, view: View<H>)
    returns (view': View<H>)
    requires Sound(proto) && Filled(proto, st, buffer, rest, view) && st.BlockHeaders?
    ensures Steps(proto, st, buffer, rest, view, view') && view' == NextView(st, view)
  {
    var left := view.cur.left;
    if left == [] {
      view' := View(Between, view.pending);
      EndAnswers(proto, st, view, Step(Idle, buffer, Some(BadMessage)), view');
    } else {
      ReadItem(proto, left, Encode(proto, view.pending), buffer, rest);
      view' := View(if |left| == 1 then Between else InList(left[1..]), view.pending);
      ItemAnswers(proto, st, view, buffer, view');
      ItemSync(proto, st, buffer, rest, view, view');
    }
  }

  lemma ItemSync<H, M>(proto: Proto<H, M>, st: State<H>, buffer: seq<Byte>, rest: seq<Byte>, view: View<H>,
                       view': View<H>)
    requires Filled(proto, st, buffer, rest, view) && st.BlockHeaders? && view.cur.left != []
    requires var n := |proto.enc(view.cur.left[0])|;
      && 0 < n <= |buffer| && proto.dec(buffer) == Some((view.cur.left[0], n))
      && st.bytesLeft == n + |EncAll(proto, view.cur.left[1..])|
      && buffer[n..] + rest == EncAll(proto, view.cur.left[1..]) + Encode(proto, view.pending)
    requires view' == View(if |view.cur.left| == 1 then Between else InList(view.cur.left[1..]), view.pending)
    ensures var step := HandleItem(proto, st.bytesLeft, st.itemsLeft, st.headers, buffer);
      && InSync(proto, step.state, step.buffer, rest, view')
      && (step.reply.None? ==> step.state.BlockHeaders? && step.state.itemsLeft < st.itemsLeft)
      && step.reply != Some(IoError)
  {
  }

  lemma EndAnswers<H, M>(proto: Proto<H, M>, st: State<H>, view: View<H>, step: Step<H, M>, view': View<H>)
    requires step.state.Idle? && step.reply.Some? && CurReplies(proto, st, view.cur) == [step.reply.value]
    requires view' == View(Between, view.pending)
    ensures Answers(proto, st, view, step, view')
  {
    assert Todo(proto, Idle, view') == AllReplies(proto, view.pending);
  }

  lemma ItemAnswers<H, M>(proto: Proto<H, M>, st: State<H>, view: View<H>, buffer: seq<Byte>, view': View<H>)
    requires st.BlockHeaders? && |st.headers| < HEADER_BATCH_SIZE
    requires view.cur.InList? && view.cur.left != [] && st.itemsLeft == |view.cur.left|
    requires st.bytesLeft == |proto.enc(view.cur.left[0])| + |EncAll(proto, view.cur.left[1..])|
    requires 0 < |proto.enc(view.cur.left[0])| <= |buffer|
    requires proto.dec(buffer) == Some((view.cur.left[0], |proto.enc(view.cur.left[0])|))
    requires view' == View(if |view.cur.left| == 1 then Between else InList(view.cur.left[1..]), view.pending)
    ensures Answers(proto, st, view, HandleItem(proto, st.bytesLeft, st.itemsLeft, st.headers, buffer), view')
  {
    var left := view.cur.left;
    var hs, rest := st.headers + [left[0]], left[1..];
    BatchStep<H, M>(st.headers, left);
    var step := HandleItem(proto, st.bytesLeft, st.itemsLeft, st.headers, buffer);
    var all := AllReplies(proto, view.pending);
    if rest == [] {
      EndAnswers(proto, st, view, step, view');
    } else if |hs| == HEADER_BATCH_SIZE {
      Assoc([Headers(hs, |rest|)], Batches<H, M>([] + rest), all);
    }
  }

  // ----- the codec -----

  // The next thing on the stream is not an attachment that nobody has announced.
  ghost predicate Ready<H>(st: State<H>, view: View<H>) {
    st.Idle? && view.pending != [] ==> !view.pending[0].Raw?
  }

  // Unless everything has been handled, the stream holds the next item.
  lemma EnoughBytes<H(!new), M>(proto: Proto<H, M>, st: State<H>, buffer: seq<Byte>, rest: seq<Byte>, view: View<H>)
    requires Sound(proto) && InSync(proto, st, buffer, rest, view) && Ready(st, view)
    ensures |buffer| + |rest| < NextLen(st) ==> Todo(proto, st, view) == []
    ensures |buffer| + |rest| >= NextLen(st) && st.Idle? ==> view.pending != []
  {
    assert |buffer| + |rest| == |Bytes(proto, view)|;
    if st.Idle? {
      if view.pending != [] { assert |Enc(proto, view.pending[0])| >= MSG_HEADER_LEN; }
    } else {
      assert |CurBytes(proto, view.cur)| >= NextLen(st);
    }
  }

  // Moving bytes from the stream to the buffer.
  lemma FillsUp<H, M>(proto: Proto<H, M>, st: State<H>, buffer: seq<Byte>, extra: seq<Byte>, rest: seq<Byte>,
                      view: View<H>)
    requires InSync(proto, st, buffer, extra + rest, view)
    requires |extra| == (if NextLen(st) > |buffer| then NextLen(st) - |buffer| else 0)
    ensures Filled(proto, st, buffer + extra, rest, view)
  {
    Assoc(buffer, extra, rest);
  }

  lemma Rejoin<T>(s: seq<T>, at: nat, next: nat)
    requires at <= next <= |s|
    ensures s[at..] == s[at..next] + s[next..]
  {
  }

  lemma StepAny<H(!new), M>(proto: Proto<H, M>, st: State<H>, buffer: seq<Byte>, rest: seq<Byte>, view: View<H>)
    returns (view': View<H>)
    requires Sound(proto) && Filled(proto, st, buffer, rest, view) && Ready(st, view)
    requires st.Idle? ==> view.pending != []
    ensures Steps(proto, st, buffer, rest, view, view') && view' == NextView(st, view)
  {
    match st
    case Idle => view' := StepIdle(proto, buffer, rest, view);
    case Known(kind, _) =>
      if kind == HEADERS { view' := StepList(proto, st, buffer, rest, view); }
      else { view' := StepBody(proto, st, buffer, rest, view); }
    case Foreigner(_, _) => view' := StepBody(proto, st, buffer, rest, view);
    case BlockHeaders(_, _, _) => view' := StepItem(proto, st, buffer, rest, view);
    case Attached(_) => view' := StepChunk(proto, st, buffer, rest, view);
  }

  lemma LineIsReady<H, M>(proto: Proto<H, M>, st: State<H>, view: View<H>)
    requires Matches(proto, st, view.cur) && Orderly(proto, CurOwes(proto, view.cur), view.pending)
    ensures Ready(st, view)
  {
  }

  // Attachments stay in their place.
  lemma StaysOrderly<H, M>(proto: Proto<H, M>, st: State<H>, buffer: seq<Byte>, rest: seq<Byte>, view: View<H>,
                           step: Step<H, M>)
    requires Filled(proto, st, buffer, rest, view) && step == Handle(proto, st, buffer)
    requires Orderly(proto, CurOwes(proto, view.cur), view.pending)
    ensures Orderly(proto, OwedAfter(proto, step.reply, NextView(st, view).cur), NextView(st, view).pending)
  {
    if st.Known? && st.kind != HEADERS {
      SplitFront(buffer, rest, Payload(proto, view.cur.frame), Encode(proto, view.pending));
      assert buffer[..st.len] == view.cur.frame.bytes;
    }
  }

  lemma StepMeans<H, M>(proto: Proto<H, M>, st: State<H>, buffer: seq<Byte>, rest: seq<Byte>, view: View<H>,
                        view': View<H>, step: Step<H, M>)
    requires |buffer| >= NextLen(st) && Steps(proto, st, buffer, rest, view, view') && step == Handle(proto, st, buffer)
    ensures InSync(proto, step.state, step.buffer, rest, view')
    ensures step.reply.None? ==> Todo(proto, step.state, view') == Todo(proto, st, view) && Ready(step.state, view')
    ensures step.reply.Some? ==> Todo(proto, st, view) == [step.reply.value] + Todo(proto, step.state, view')
    ensures step.reply.Some? && step.reply.value.Message? ==> step.state.Idle?
  {
  }

  // How many of the read attempts from a to b - 1 fail.
  ghost function Faults(faulty: nat -> bool, a: nat, b: nat): nat
    decreases b
  {
    if b <= a then 0 else Faults(faulty, a, b - 1) + (if faulty(b - 1) then 1 else 0)
  }

  lemma {:induction false} FaultsAdd(faulty: nat -> bool, a: nat, b: nat, c: nat)
    requires a <= b <= c
    ensures Faults(faulty, a, c) == Faults(faulty, a, b) + Faults(faulty, b, c)
    decreases c
  {
    if b < c { FaultsAdd(faulty, a, b, c - 1); }
  }

  lemma FaultsNext(faulty: nat -> bool, a: nat, b: nat, c: nat)
    requires a <= b && (c == b || c == b + 1)
    ensures Faults(faulty, a, c) == Faults(faulty, a, b) + (if c > b && faulty(b) then 1 else 0)
  {
  }

  // The attempts of one turn: the next one, and none if no bytes were needed.
  ghost predicate Tried(faulty: nat -> bool, before: nat, after: nat, taken: int, failed: bool) {
    if failed then after == before + 1 && taken == 0
    else taken >= 0 && after == before + (if taken > 0 then 1 else 0) && (taken > 0 ==> !faulty(before))
  }

  class Codec<H(!new), !M> {
    const proto: Proto<H, M>
    const stream: seq<Byte>
    const faulty: nat -> bool  // which attempts to read from the stream fail
    var tries: nat             // attempts so far
    var at: nat                // bytes taken from the stream
    var buffer: seq<Byte>
    var state: State<H>
    var bytesRead: nat
    ghost var view: View<H>

    ghost predicate Valid()
      reads this
    {
      Sound(proto) && at <= |stream| && InSync(proto, state, buffer, stream[at..], view)
    }

    // The replies still to come.
    ghost function Coming(): seq<Reply<H, M>>
      reads this
    {
      Todo(proto, state, view)
    }

    // Attachments are where they were announced.
    ghost predicate InLine()
      reads this
    {
      Orderly(proto, CurOwes(proto, view.cur), view.pending)
    }

    // The same right after a reply that may announce one.
    ghost predicate InLineAfter(r: Option<Reply<H, M>>)
      reads this
    {
      Orderly(proto, OwedAfter(proto, r, view.cur), view.pending)
    }

    constructor (proto: Proto<H, M>, stream: seq<Byte>, faulty: nat -> bool, ghost frames: seq<Frame<H>>)
      requires Sound(proto) && AllWellFormed(proto, frames) && stream == Encode(proto, frames)
      ensures Valid() && this.proto == proto && this.stream == stream && this.faulty == faulty
      ensures at == 0 && tries == 0 && bytesRead == 0
      ensures state.Idle? && view == View(Between, frames) && Coming() == AllReplies(proto, frames)
    {
      this.proto, this.stream, this.faulty := proto, stream, faulty;
      tries, at, buffer, state, bytesRead := 0, 0, [], Idle, 0;
      view := View(Between, frames);
      new;
      assert stream[0..] == stream;
    }

    // The next bytes of the stream are an attachment of this size.
    method ExpectAttachment(size: nat)
      requires Valid() && state.Idle? && view.pending != []
      requires view.pending[0].Raw? && |view.pending[0].bytes| == size
      modifies this`state, this`view
      ensures Valid() && Ready(state, view) && Coming() == old(Coming())
      ensures view == View(InRaw(old(view.pending[0].bytes)), old(view.pending[1..]))
    {
      var f := view.pending[0];
      state, view := Attached(size), View(InRaw(f.bytes), view.pending[1..]);
    }

    // Moves bytes from the stream to the buffer.
    method Pull(n: nat)
      requires Valid() && at + n <= |stream|
      requires n == (if NextLen(state) > |buffer| then NextLen(state) - |buffer| else 0)
      modifies this`at, this`buffer, this`bytesRead
      ensures at == old(at) + n && bytesRead == old(bytesRead) + n
      ensures Filled(proto, state, buffer, stream[at..], view)
    {
      var next := at + n;
      var extra := stream[at..next];
      Rejoin(stream, at, next);
      FillsUp(proto, state, buffer, extra, stream[next..], view);
      buffer, at, bytesRead := buffer + extra, next, bytesRead + n;
    }

    // Fills the buffer for the next item with one attempt to read, if it needs any.  It fails
    // only if the attempt is a faulty one or the stream is too short, and then leaves all as it was.
    method Fill() returns (ok: bool)
      requires Valid()
      modifies this`at, this`buffer, this`bytesRead, this`tries
      ensures ok ==> at <= |stream| && Filled(proto, state, buffer, stream[at..], view)
      ensures ok ==> |old(buffer)| + |stream| - old(at) >= NextLen(state)
      ensures Tried(faulty, old(tries), tries, at - old(at), !ok)
      ensures !ok ==> at == old(at) && buffer == old(buffer)
      ensures !ok ==> faulty(old(tries)) || |buffer| + |stream[at..]| < NextLen(state)
      ensures bytesRead - old(bytesRead) == at - old(at)
    {
      var preLen := |buffer|;
      var toRead := if NextLen(state) > preLen then NextLen(state) - preLen else 0;
      if toRead > 0 {
        var attempt := tries;
        tries := tries + 1;
        if faulty(attempt) || toRead > |stream| - at { return false; }
      }
      Pull(toRead);
      return true;
    }

    // Handles the item in the buffer.
    method Take() returns (r: Option<Reply<H, M>>)
      requires Sound(proto) && at <= |stream| && Filled(proto, state, buffer, stream[at..], view) && Ready(state, view)
      requires state.Idle? ==> view.pending != []
      modifies this`state, this`buffer, this`view
      ensures Valid() && r != Some(IoError)
      ensures r.None? ==> Rank(state) < Rank(old(state)) && Ready(state, view) && Coming() == old(Coming())
      ensures r.Some? ==> old(Coming()) == [r.value] + Coming()
      ensures r.Some? && r.value.Message? ==> state.Idle?
      ensures old(InLine()) ==> InLineAfter(r)
    {
      ghost var rest := stream[at..];
      ghost var next := StepAny(proto, state, buffer, rest, view);
      var step := Handle(proto, state, buffer);
      StepMeans(proto, state, buffer, rest, view, next, step);
      if InLine() { StaysOrderly(proto, state, buffer, rest, view, step); }
      state, buffer, view := step.state, step.buffer, next;
      return step.reply;
    }

    // One turn of the loop: a failed read, a reply, or neither and one step closer to a reply.
    method Turn() returns (r: Option<Reply<H, M>>)
      requires Valid() && Ready(state, view)
      modifies this
      ensures Valid() && bytesRead - old(bytesRead) == at - old(at)
      ensures Tried(faulty, old(tries), tries, at - old(at), r == Some(IoError))
      ensures r.None? ==> Rank(state) < Rank(old(state)) && Ready(state, view) && Coming() == old(Coming())
      ensures r == Some(IoError) ==> view == old(view) && state == old(state) && (faulty(old(tries)) || Coming() == [])
      ensures r.Some? && r != Some(IoError) ==> old(Coming()) == [r.value] + Coming()
      ensures r.Some? && r.value.Message? ==> state.Idle?
      ensures old(InLine()) ==> InLineAfter(r)
    {
      EnoughBytes(proto, state, buffer, stream[at..], view);
      var ok := Fill();
      if !ok { return Some(IoError); }
      r := Take();
    }

    // The next reply.  It is a read error only if an attempt to read failed, at most one and the
    // last, or if everything was answered; a read error loses nothing that was still to come.
    method Read() returns (r: Reply<H, M>)
      requires Valid() && Ready(state, view)
      modifies this
      ensures Valid() && bytesRead == at - old(at) && old(tries) <= tries <= old(tries) + bytesRead + 1
      ensures r.IoError? ==> Coming() == old(Coming()) && Ready(state, view)
      ensures r.IoError? ==> Coming() == [] || Faults(faulty, old(tries), tries) == 1
      ensures Faults(faulty, old(tries), tries) <= (if r.IoError? then 1 else 0)
      ensures !r.IoError? ==> old(Coming()) == [r] + Coming()
      ensures r.Message? ==> state.Idle?
      ensures old(InLine()) ==> InLineAfter(Some(r))
    {
      bytesRead := 0;
      ghost var start, todo, line := tries, Coming(), InLine();
      while true
        invariant Valid() && Ready(state, view) && bytesRead == at - old(at) && Coming() == todo
        invariant start <= tries <= start + bytesRead && Faults(faulty, start, tries) == 0
        invariant line ==> InLine()
        decreases Rank(state)
      {
        ghost var before := tries;
        var reply := Turn();
        FaultsNext(faulty, start, before, tries);
        if reply.Some? { return reply.value; }
      }
    }

    // Announces the attachment that a reply asks for.
    method Announce(r: Reply<H, M>)
      requires Valid() && InLineAfter(Some(r)) && (r.Message? ==> state.Idle?)
      modifies this`state, this`view
      ensures Valid() && InLine() && Coming() == old(Coming())
    {
      var size := Owes(proto, r);
      if size.Some? { ExpectAttachment(size.value); }
    }

    // A read, and the announcement of an attachment.
    method ReadNext() returns (r: Reply<H, M>)
      requires Valid() && InLine()
      modifies this
      ensures Valid() && InLine() && bytesRead == at - old(at) && old(tries) <= tries
      ensures r.IoError? ==> Coming() == old(Coming()) && (Coming() == [] || Faults(faulty, old(tries), tries) == 1)
      ensures Faults(faulty, old(tries), tries) <= (if r.IoError? then 1 else 0)
      ensures !r.IoError? ==> old(Coming()) == [r] + Coming()
    {
      LineIsReady(proto, state, view);
      r := Read();
      Announce(r);
    }

    // Any number of reads with failures anywhere, and attachments among the frames: the replies
    // come in order, none twice and none lost; every read that does not fail brings one until
    // everything is answered; the byte counts add up to what was taken from the stream.
    method ReadMany(n: nat) returns (got: seq<Reply<H, M>>, total: nat)
      requires Valid() && InLine()
      modifies this
      ensures Valid() && InLine()
      ensures old(Coming()) == got + Coming() && total == at - old(at) && old(tries) <= tries
      ensures |got| + Faults(faulty, old(tries), tries) <= n
      ensures Coming() == [] || |got| + Faults(faulty, old(tries), tries) == n
    {
      got, total := [], 0;
      for i := 0 to n
        invariant Valid() && InLine()
        invariant old(Coming()) == got + Coming() && total == at - old(at) && old(tries) <= tries
        invariant |got| + Faults(faulty, old(tries), tries) <= i
        invariant Coming() == [] || |got| + Faults(faulty, old(tries), tries) == i
      {
        ghost var before := tries;
        var r := ReadNext();
        FaultsAdd(faulty, old(tries), before, tries);
        total := total + bytesRead;
        if !r.IoError? {
          Assoc(got, [r], Coming());
          got := got + [r];
        }
      }
    }
  }
}
