/**
 Message frames as bytes on the wire, and the replies a peer's codec gives for them.

 Message bodies and block headers are opaque: `Proto` holds how they are written and read.
 */
module Frames {
  import opened Collections

  type Byte = x: int | 0 <= x < 256

  const MSG_HEADER_LEN: nat := 11
  const HEADERS: Byte := 9
  const HEADER_BATCH_SIZE: nat := 32
  const MAX_HEADER_BYTES: nat := 578
  const CHUNK_BYTES: nat := 48_000

  datatype Proto<!H, !M> = Proto(
    magic0: Byte,
    magic1: Byte,
    known: Byte -> bool,                       // message types we understand
    maxLen: Byte -> nat,                       // message size limit of a type, before the factor of 4
    decode: (Byte, seq<Byte>) -> Option<M>,    // message body
    attaches: M -> Option<nat>,                // the size of the attachment a message announces
    enc: H -> seq<Byte>,                       // block header
    dec: seq<Byte> -> Option<(H, nat)>)        // block header at the front of a buffer, with its size

  // Block headers can be told from what follows them, and are never larger than the estimate.
  ghost predicate Sound<H(!new), M>(proto: Proto<H, M>) {
    && proto.known(HEADERS)
    && (forall h :: 0 < |proto.enc(h)| <= MAX_HEADER_BYTES)
    && (forall h, rest {:trigger proto.dec(proto.enc(h) + rest)} ::
          proto.dec(proto.enc(h) + rest) == Some((h, |proto.enc(h)|)))
  }

  // ----- big-endian numbers -----

  function Be(n: nat, k: nat): (r: seq<Byte>)
    ensures |r| == k
    decreases k
  {
    if k == 0 then [] else Be(n / 256, k - 1) + [n % 256]
  }

  function FromBe(s: seq<Byte>): nat {
    if s == [] then 0 else FromBe(s[..|s| - 1]) * 256 + s[|s| - 1]
  }

  function Limit(k: nat): nat {
    if k == 0 then 1 else Limit(k - 1) * 256
  }

  lemma {:induction false} BeRoundTrip(n: nat, k: nat)
    requires n < Limit(k)
    ensures FromBe(Be(n, k)) == n
    decreases k
  {
    if k > 0 {
      BeRoundTrip(n / 256, k - 1);
      assert Be(n, k)[..k - 1] == Be(n / 256, k - 1);
    }
  }

  // Any k bytes are the number that they spell, which is below the limit.
  lemma {:induction false} BeOfFromBe(s: seq<Byte>)
    ensures FromBe(s) < Limit(|s|) && Be(FromBe(s), |s|) == s
  {
    if s != [] { BeOfFromBe(s[..|s| - 1]); }
  }

  // ----- frames -----

  datatype Frame<H> =
    | Body(kind: Byte, bytes: seq<Byte>)     // a message of a known type
    | Foreign(kind: Byte, bytes: seq<Byte>)  // a message of an unknown type
    | HeaderList(items: seq<H>)
    | Raw(bytes: seq<Byte>)                  // an attachment, announced by a message before it

  function EncAll<H, M>(proto: Proto<H, M>, items: seq<H>): seq<Byte> {
    if items == [] then [] else proto.enc(items[0]) + EncAll(proto, items[1..])
  }

  function Head<H, M>(proto: Proto<H, M>, kind: Byte, len: nat): (r: seq<Byte>)
    ensures |r| == MSG_HEADER_LEN
  {
    [proto.magic0, proto.magic1, kind] + Be(len, 8)
  }

  function Payload<H, M>(proto: Proto<H, M>, f: Frame<H>): seq<Byte> {
    match f
    case Body(_, bytes) => bytes
    case Foreign(_, bytes) => bytes
    case HeaderList(items) => Be(|items|, 2) + EncAll(proto, items)
    case Raw(bytes) => bytes
  }

  function Kind<H>(f: Frame<H>): Byte
    requires !f.Raw?
  {
    if f.HeaderList? then HEADERS else f.kind
  }

  function Enc<H, M>(proto: Proto<H, M>, f: Frame<H>): seq<Byte> {
    if f.Raw? then f.bytes else Head(proto, Kind(f), |Payload(proto, f)|) + Payload(proto, f)
  }

  function Encode<H, M>(proto: Proto<H, M>, fs: seq<Frame<H>>): seq<Byte> {
    if fs == [] then [] else Enc(proto, fs[0]) + Encode(proto, fs[1..])
  }

  // What a peer that keeps to the protocol sends.
  ghost predicate WellFormed<H, M>(proto: Proto<H, M>, f: Frame<H>) {
    f.Raw? ||
    (&& (f.Body? ==> proto.known(f.kind) && f.kind != HEADERS)
     && (f.Foreign? ==> !proto.known(f.kind))
     && (f.HeaderList? ==> |f.items| < Limit(2))
     && |Payload(proto, f)| <= 4 * proto.maxLen(Kind(f)) && |Payload(proto, f)| < Limit(8))
  }

  ghost predicate AllWellFormed<H, M>(proto: Proto<H, M>, fs: seq<Frame<H>>) {
    forall i :: 0 <= i < |fs| ==> WellFormed(proto, fs[i])
  }

  // The attachment that a frame announces.
  function Announces<H, M>(proto: Proto<H, M>, f: Frame<H>): Option<nat> {
    if !f.Body? then None
    else match proto.decode(f.kind, f.bytes)
      case None => None
      case Some(m) => proto.attaches(m)
  }

  // Attachments come right after the message that announces them, with the size announced, and
  // nowhere else.  `owed` is what was announced last.
  ghost predicate Orderly<H, M>(proto: Proto<H, M>, owed: Option<nat>, fs: seq<Frame<H>>)
    decreases |fs|
  {
    if fs == [] then owed.None?
    else if owed.Some? then fs[0].Raw? && |fs[0].bytes| == owed.value && Orderly(proto, None, fs[1..])
    else !fs[0].Raw? && Orderly(proto, Announces(proto, fs[0]), fs[1..])
  }

  // ----- replies -----

  datatype Reply<H, M> =
    | Message(kind: Byte, body: Option<M>)  // None: the body did not decode
    | Unknown(kind: Byte)
    | Headers(headers: seq<H>, remaining: nat)
    | Attachment(bytes: seq<Byte>, left: nat)
    | BadMessage
    | BadHeader
    | IoError

  // A list of headers in batches, each with the number still to come.
  function Batches<H, M>(items: seq<H>): seq<Reply<H, M>> {
    if |items| <= HEADER_BATCH_SIZE then [Headers(items, 0)]
    else [Headers(items[..HEADER_BATCH_SIZE], |items| - HEADER_BATCH_SIZE)] + Batches(items[HEADER_BATCH_SIZE..])
  }

  // An attachment in chunks, each with the number of bytes still to come.
  function Chunks<H, M>(bytes: seq<Byte>): seq<Reply<H, M>> {
    if |bytes| <= CHUNK_BYTES then [Attachment(bytes, 0)]
    else [Attachment(bytes[..CHUNK_BYTES], |bytes| - CHUNK_BYTES)] + Chunks(bytes[CHUNK_BYTES..])
  }

  function Replies<H, M>(proto: Proto<H, M>, f: Frame<H>): seq<Reply<H, M>> {
    match f
    case Body(kind, bytes) => [Message(kind, proto.decode(kind, bytes))]
    case Foreign(kind, _) => [Unknown(kind)]
    case HeaderList(items) => if items == [] then [BadMessage] else Batches(items)
    case Raw(bytes) => Chunks(bytes)
  }

  function AllReplies<H, M>(proto: Proto<H, M>, fs: seq<Frame<H>>): seq<Reply<H, M>> {
    if fs == [] then [] else Replies(proto, fs[0]) + AllReplies(proto, fs[1..])
  }

  function Joined<H, M>(rs: seq<Reply<H, M>>): seq<H> {
    if rs == [] then [] else (if rs[0].Headers? then rs[0].headers else []) + Joined(rs[1..])
  }

  // The batches make up the list, none is larger than 32, and only the last has nothing remaining.
  lemma {:induction false} BatchesAre<H, M>(items: seq<H>)
    ensures var rs: seq<Reply<H, M>> := Batches(items);
      && Joined(rs) == items && rs != []
      && (forall i :: 0 <= i < |rs| ==> rs[i].Headers? && |rs[i].headers| <= 32)
      && (forall i :: 0 <= i < |rs| - 1 ==> |rs[i].headers| == 32 && rs[i].remaining == |items| - 32 * (i + 1))
      && (forall i :: 0 <= i < |rs| ==> (rs[i].remaining == 0 <==> i == |rs| - 1))
  {
    var rs: seq<Reply<H, M>> := Batches(items);
    if |items| > HEADER_BATCH_SIZE {
      var rest: seq<Reply<H, M>> := Batches(items[HEADER_BATCH_SIZE..]);
      BatchesAre<H, M>(items[HEADER_BATCH_SIZE..]);
      assert rs[1..] == rest;
      assert items == items[..HEADER_BATCH_SIZE] + items[HEADER_BATCH_SIZE..];
      assert forall i :: 0 < i < |rs| ==> rs[i] == rest[i - 1];
    } else {
      assert rs[1..] == [];
    }
  }

  function Glued<H, M>(rs: seq<Reply<H, M>>): seq<Byte> {
    if rs == [] then [] else (if rs[0].Attachment? then rs[0].bytes else []) + Glued(rs[1..])
  }

  lemma {:induction false} ChunksAre<H, M>(bytes: seq<Byte>)
    ensures var rs: seq<Reply<H, M>> := Chunks(bytes);
      && Glued(rs) == bytes && rs != []
      && (forall i :: 0 <= i < |rs| ==> rs[i].Attachment? && |rs[i].bytes| <= 48_000)
      && (forall i :: 0 <= i < |rs| - 1 ==> |rs[i].bytes| == 48_000 && rs[i].left == |bytes| - 48_000 * (i + 1))
      && (forall i :: 0 <= i < |rs| ==> (rs[i].left == 0 <==> i == |rs| - 1))
  {
    var rs: seq<Reply<H, M>> := Chunks(bytes);
    if |bytes| > CHUNK_BYTES {
      var rest: seq<Reply<H, M>> := Chunks(bytes[CHUNK_BYTES..]);
      ChunksAre<H, M>(bytes[CHUNK_BYTES..]);
      assert rs[1..] == rest;
      assert bytes == bytes[..CHUNK_BYTES] + bytes[CHUNK_BYTES..];
      assert forall i :: 0 < i < |rs| ==> rs[i] == rest[i - 1];
    } else {
      assert rs[1..] == [];
    }
  }
}
