/** The framed stream: a magic word, a big-endian length and a payload, written
    to and read from growing buffers. */
module Wire {
  import opened Geometry
  import opened Tiles

  newtype Byte = x: int | 0 <= x < 256

  const MAGIC: seq<Byte> := [0x52, 0x4D, 0x44, 0x32]
  const HEADER_LEN: nat := 8
  const HARD_MAX_PAYLOAD: nat := 32 * 1024 * 1024
  const PRE_HANDSHAKE_MAX_PAYLOAD: nat := 64 * 1024

  datatype WireError = InvalidMagic | PayloadTooLarge(actual: nat, limit: nat) | Malformed

  /** The payload serializer, about which nothing is assumed here. */
  datatype Format<!E> = Format(write: E -> seq<Byte>, read: seq<Byte> -> Option<E>)

  /** The reader inverts the writer. */
  ghost predicate Inverts<E(!new)>(f: Format<E>) {
    forall e: E :: f.read(f.write(e)) == Some(e)
  }

  function BigEndian(n: nat): seq<Byte>
    requires n < 0x1_0000_0000
  {
    [(n / 0x100_0000) as Byte, (n / 0x1_0000 % 0x100) as Byte, (n / 0x100 % 0x100) as Byte, (n % 0x100) as Byte]
  }

  function FromBigEndian(b: seq<Byte>): nat
    requires |b| == 4
  {
    ((b[0] as nat * 0x100 + b[1] as nat) * 0x100 + b[2] as nat) * 0x100 + b[3] as nat
  }

  lemma LengthRoundTrip(n: nat)
    requires n < 0x1_0000_0000
    ensures FromBigEndian(BigEndian(n)) == n
  {
  }

  /** One envelope on the wire. */
  function Framed(payload: seq<Byte>): seq<Byte>
    requires |payload| < 0x1_0000_0000
  {
    MAGIC + BigEndian(|payload|) + payload
  }

  datatype Decoded<E> =
    | Wait
    | Got(value: E, rest: seq<Byte>)
    | Bad(error: WireError, rest: seq<Byte>)

  /** What one decode makes of a buffer. */
  function DecodeOne<E>(f: Format<E>, limit: nat, src: seq<Byte>): (d: Decoded<E>)
    ensures d.Got? ==> |d.rest| + HEADER_LEN <= |src|
  {
    if |src| < HEADER_LEN then Wait
    else if src[..4] != MAGIC then Bad(InvalidMagic, src)
    else
      var len := FromBigEndian(src[4..8]);
      if len > limit then Bad(PayloadTooLarge(len, limit), src)
      else if |src| < HEADER_LEN + len then Wait
      else
        var rest := src[HEADER_LEN + len..];
        match f.read(src[HEADER_LEN..HEADER_LEN + len])
        case Some(e) => Got(e, rest)
        case None => Bad(Malformed, rest)
  }

  datatype Drained<E> = Drained(values: seq<E>, rest: seq<Byte>, error: Option<WireError>)

  /** Decodes until the buffer needs more bytes or an error ends the stream. */
  function DecodeAll<E>(f: Format<E>, limit: nat, src: seq<Byte>): Drained<E>
    decreases |src|
  {
    match DecodeOne(f, limit, src)
    case Wait => Drained([], src, None)
    case Bad(e, rest) => Drained([], rest, Some(e))
    case Got(v, rest) =>
      var d := DecodeAll(f, limit, rest);
      Drained([v] + d.values, d.rest, d.error)
  }

  function Concat(chunks: seq<seq<Byte>>): seq<Byte> {
    if chunks == [] then [] else chunks[0] + Concat(chunks[1..])
  }

  /** Chunk after chunk is appended and decoded; an error ends the stream. */
  function FeedAll<E>(f: Format<E>, limit: nat, buffer: seq<Byte>, chunks: seq<seq<Byte>>): Drained<E>
    decreases |chunks|
  {
    if chunks == [] then Drained([], buffer, None)
    else
      var d := DecodeAll(f, limit, buffer + chunks[0]);
      if d.error.Some? then d
      else
        var r := FeedAll(f, limit, d.rest, chunks[1..]);
        Drained(d.values + r.values, r.rest, r.error)
  }

  // ------------------------------------------------------------------ proofs

  /** Bytes that arrive later never change what was decoded already. */
  lemma DecodeExtends<E>(f: Format<E>, limit: nat, a: seq<Byte>, b: seq<Byte>)
    requires !DecodeOne(f, limit, a).Wait?
    ensures var x, y := DecodeOne(f, limit, a), DecodeOne(f, limit, a + b);
            && (x.Got? ==> y == Got(x.value, x.rest + b))
            && (x.Bad? ==> y == Bad(x.error, x.rest + b))
  {
    var s := a + b;
    assert s[..4] == a[..4] && s[4..8] == a[4..8];
    if a[..4] == MAGIC {
      var len := FromBigEndian(a[4..8]);
      if len <= limit {
        assert s[HEADER_LEN..HEADER_LEN + len] == a[HEADER_LEN..HEADER_LEN + len];
        assert s[HEADER_LEN + len..] == a[HEADER_LEN + len..] + b;
      }
    }
  }

  lemma JoinThree<T>(a: seq<T>, b: seq<T>, c: seq<T>)
    ensures a + (b + c) == (a + b) + c
  {
  }

  lemma {:induction false} DecodeAllExtends<E>(f: Format<E>, limit: nat, a: seq<Byte>, b: seq<Byte>)
    ensures var x, y := DecodeAll(f, limit, a), DecodeAll(f, limit, a + b);
            && (x.error.Some? ==> y.values == x.values && y.error == x.error)
            && (x.error.None? ==>
                  var z := DecodeAll(f, limit, x.rest + b);
                  y == Drained(x.values + z.values, z.rest, z.error))
    decreases |a|
  {
    hide DecodeOne;
    match DecodeOne(f, limit, a)
    case Wait =>
      var z := DecodeAll(f, limit, a + b);
      assert [] + z.values == z.values;
    case Bad(e, rest) => DecodeExtends(f, limit, a, b);
    case Got(v, rest) =>
      DecodeExtends(f, limit, a, b);
      DecodeAllExtends(f, limit, rest, b);
      var x := DecodeAll(f, limit, rest);
      if x.error.None? {
        var z := DecodeAll(f, limit, x.rest + b);
        JoinThree([v], x.values, z.values);
      }
  }

  lemma {:induction false} DrainedWaits<E>(f: Format<E>, limit: nat, src: seq<Byte>)
    requires DecodeAll(f, limit, src).error.None?
    ensures DecodeOne(f, limit, DecodeAll(f, limit, src).rest).Wait?
    decreases |src|
  {
    var d := DecodeOne(f, limit, src);
    if d.Got? { DrainedWaits(f, limit, d.rest); }
  }

  /** Chunking does not matter, whatever the bytes: cutting a stream anywhere
      yields the same envelopes, the same error and the same remainder. */
  lemma {:induction false} ChunkingIndependent<E>(f: Format<E>, limit: nat, buffer: seq<Byte>, chunks: seq<seq<Byte>>)
    requires DecodeOne(f, limit, buffer).Wait?
    ensures var x, y := FeedAll(f, limit, buffer, chunks), DecodeAll(f, limit, buffer + Concat(chunks));
            && x.values == y.values && x.error == y.error
            && (x.error.None? ==> x.rest == y.rest)
    decreases |chunks|
  {
    if chunks == [] {
      assert buffer + [] == buffer;
    } else {
      var first := buffer + chunks[0];
      var tail := Concat(chunks[1..]);
      assert buffer + Concat(chunks) == first + tail;
      DecodeAllExtends(f, limit, first, tail);
      var d := DecodeAll(f, limit, first);
      if d.error.None? {
        DrainedWaits(f, limit, first);
        ChunkingIndependent(f, limit, d.rest, chunks[1..]);
      }
    }
  }

  /** The bytes of a list of envelopes. */
  function Stream<E>(f: Format<E>, envelopes: seq<E>): seq<Byte>
    requires forall k :: 0 <= k < |envelopes| ==> |f.write(envelopes[k])| < 0x1_0000_0000
  {
    if envelopes == [] then [] else Framed(f.write(envelopes[0])) + Stream(f, envelopes[1..])
  }

  predicate Within<E>(f: Format<E>, limit: nat, envelopes: seq<E>) {
    forall k :: 0 <= k < |envelopes| ==> |f.write(envelopes[k])| <= limit
  }

  lemma FramedDecodes<E(!new)>(f: Format<E>, limit: nat, e: E, more: seq<Byte>)
    requires Inverts(f) && limit <= HARD_MAX_PAYLOAD && |f.write(e)| <= limit
    ensures DecodeOne(f, limit, Framed(f.write(e)) + more) == Got(e, more)
  {
    var payload := f.write(e);
    var src := Framed(payload) + more;
    LengthRoundTrip(|payload|);
    assert src[..4] == MAGIC;
    assert src[4..8] == BigEndian(|payload|);
    assert src[HEADER_LEN..HEADER_LEN + |payload|] == payload;
    assert src[HEADER_LEN + |payload|..] == more;
  }

  lemma Digits(high: nat, low: Byte, other: nat, last: Byte)
    requires high * 0x100 + low as nat == other * 0x100 + last as nat
    ensures high == other && low == last
  {
  }

  lemma SameLength(b: seq<Byte>, c: seq<Byte>)
    requires |b| == |c| == 4 && FromBigEndian(b) == FromBigEndian(c)
    ensures b == c
  {
    var x, y := b[0] as nat, c[0] as nat;
    Digits((x * 0x100 + b[1] as nat) * 0x100 + b[2] as nat, b[3], (y * 0x100 + c[1] as nat) * 0x100 + c[2] as nat, c[3]);
    Digits(x * 0x100 + b[1] as nat, b[2], y * 0x100 + c[1] as nat, c[2]);
    Digits(x, b[1], y, c[1]);
  }

  lemma LengthRead(b: seq<Byte>)
    requires |b| == 4
    ensures FromBigEndian(b) < 0x1_0000_0000 && BigEndian(FromBigEndian(b)) == b
  {
    hide BigEndian;
    LengthBound(b);
    LengthRoundTrip(FromBigEndian(b));
    assert |BigEndian(FromBigEndian(b))| == 4 by { FourBytes(FromBigEndian(b)); }
    SameLength(BigEndian(FromBigEndian(b)), b);
  }

  lemma LengthBound(b: seq<Byte>)
    requires |b| == 4
    ensures FromBigEndian(b) < 0x1_0000_0000
  {
  }

  lemma FourBytes(n: nat)
    requires n < 0x1_0000_0000
    ensures |BigEndian(n)| == 4
  {
  }

  /** The length is in network order. */
  lemma NetworkOrder()
    ensures BigEndian(0x0102_0304) == [1, 2, 3, 4]
  {
  }

  /** A length above the limit is refused as soon as its header is there, with
      nothing consumed, whatever follows. */
  lemma TooLargeIsRefused<E>(f: Format<E>, limit: nat, n: nat, more: seq<Byte>)
    requires limit < n < 0x1_0000_0000
    ensures var src := MAGIC + BigEndian(n) + more;
            && DecodeOne(f, limit, src) == Bad(PayloadTooLarge(n, limit), src)
            && DecodeAll(f, limit, src) == Drained([], src, Some(PayloadTooLarge(n, limit)))
  {
    var src := MAGIC + BigEndian(n) + more;
    LengthRoundTrip(n);
    assert src[..4] == MAGIC;
    assert src[4..8] == BigEndian(n);
  }

  /** Every envelope taken is one whole frame from the front, not above the limit,
      and a frame within the limit is always taken or found malformed. */
  lemma TakenExactly<E>(f: Format<E>, limit: nat, src: seq<Byte>, payload: seq<Byte>, rest: seq<Byte>)
    requires |payload| < 0x1_0000_0000 && src == Framed(payload) + rest && |payload| <= limit
    ensures DecodeOne(f, limit, src) == match f.read(payload) case Some(e) => Got(e, rest) case None => Bad(Malformed, rest)
  {
    LengthRoundTrip(|payload|);
    assert src[..4] == MAGIC;
    assert src[4..8] == BigEndian(|payload|);
    assert src[HEADER_LEN..HEADER_LEN + |payload|] == payload;
    assert src[HEADER_LEN + |payload|..] == rest;
  }

  lemma GotIsFrame<E>(f: Format<E>, limit: nat, src: seq<Byte>) returns (payload: seq<Byte>)
    requires DecodeOne(f, limit, src).Got?
    ensures |payload| <= limit && |payload| < 0x1_0000_0000
    ensures src == Framed(payload) + DecodeOne(f, limit, src).rest
    ensures f.read(payload) == Some(DecodeOne(f, limit, src).value)
  {
    var len := FromBigEndian(src[4..8]);
    LengthRead(src[4..8]);
    payload := src[HEADER_LEN..HEADER_LEN + len];
    assert src == src[..4] + src[4..8] + payload + src[HEADER_LEN + len..];
  }

  lemma {:induction false} StreamDecodes<E(!new)>(f: Format<E>, limit: nat, envelopes: seq<E>)
    requires Inverts(f) && limit <= HARD_MAX_PAYLOAD && Within(f, limit, envelopes)
    ensures DecodeAll(f, limit, Stream(f, envelopes)) == Drained(envelopes, [], None)
    decreases |envelopes|
  {
    if envelopes != [] {
      FramedDecodes(f, limit, envelopes[0], Stream(f, envelopes[1..]));
      StreamDecodes(f, limit, envelopes[1..]);
      assert [envelopes[0]] + envelopes[1..] == envelopes;
    }
  }

  /** Round trip of the stream: envelopes within the limit, encoded, joined and
      cut into arbitrary chunks, come back exactly and in order. */
  lemma StreamRoundTrip<E(!new)>(f: Format<E>, limit: nat, envelopes: seq<E>, chunks: seq<seq<Byte>>)
    requires Inverts(f) && limit <= HARD_MAX_PAYLOAD && Within(f, limit, envelopes)
    requires Concat(chunks) == Stream(f, envelopes)
    ensures FeedAll(f, limit, [], chunks) == Drained(envelopes, [], None)
  {
    StreamDecodes(f, limit, envelopes);
    assert [] + Concat(chunks) == Concat(chunks);
    ChunkingIndependent(f, limit, [], chunks);
  }

  // ------------------------------------------------------------------- codec

  class ByteBuffer {
    var bytes: seq<Byte>

    constructor ()
      ensures bytes == []
    {
      bytes := [];
    }
  }

  class WireCodec {
    var maxPayload: nat

    ghost predicate Valid()
      reads this
    {
      maxPayload <= HARD_MAX_PAYLOAD
    }

    constructor (limit: nat)
      ensures Valid() && maxPayload == Min(limit, HARD_MAX_PAYLOAD)
    {
      maxPayload := Min(limit, HARD_MAX_PAYLOAD);
    }

    constructor PreHandshake()
      ensures Valid() && maxPayload == PRE_HANDSHAKE_MAX_PAYLOAD
    {
      maxPayload := Min(PRE_HANDSHAKE_MAX_PAYLOAD, HARD_MAX_PAYLOAD);
    }

    method SetMaxPayload(limit: nat)
      modifies this
      ensures Valid() && maxPayload == Min(limit, HARD_MAX_PAYLOAD)
    {
      maxPayload := Min(limit, HARD_MAX_PAYLOAD);
    }

    /** Appends one envelope, or refuses it and leaves the buffer alone. */
    method Encode<E>(f: Format<E>, envelope: E, dst: ByteBuffer) returns (error: Option<WireError>)
      requires Valid()
      modifies dst
      ensures var payload := f.write(envelope);
              if |payload| > maxPayload
              then error == Some(PayloadTooLarge(|payload|, maxPayload)) && dst.bytes == old(dst.bytes)
              else error.None? && dst.bytes == old(dst.bytes) + Framed(payload)
    {
      var payload := f.write(envelope);
      if |payload| > maxPayload {
        return Some(PayloadTooLarge(|payload|, maxPayload));
      }
      dst.bytes := dst.bytes + MAGIC;
      dst.bytes := dst.bytes + BigEndian(|payload|);
      dst.bytes := dst.bytes + payload;
      assert dst.bytes == old(dst.bytes) + Framed(payload);
      return None;
    }

    /** Takes one envelope from the front; while it waits for more bytes it
        consumes none. */
    method Decode<E>(f: Format<E>, src: ByteBuffer) returns (value: Option<E>, error: Option<WireError>)
      requires Valid()
      modifies src
      ensures match DecodeOne(f, maxPayload, old(src.bytes))
              case Wait => value.None? && error.None? && src.bytes == old(src.bytes)
              case Got(e, rest) => value == Some(e) && error.None? && src.bytes == rest
              case Bad(e, rest) => value.None? && error == Some(e) && src.bytes == rest
    {
      if |src.bytes| < HEADER_LEN {
        return None, None;
      }
      if src.bytes[..4] != MAGIC {
        return None, Some(InvalidMagic);
      }
      var len := FromBigEndian(src.bytes[4..8]);
      if len > maxPayload {
        return None, Some(PayloadTooLarge(len, maxPayload));
      }
      if |src.bytes| < HEADER_LEN + len {
        return None, None;
      }
      ghost var whole := src.bytes;
      src.bytes := src.bytes[HEADER_LEN..];
      var payload := src.bytes[..len];
      src.bytes := src.bytes[len..];
      assert payload == whole[HEADER_LEN..HEADER_LEN + len];
      assert src.bytes == whole[HEADER_LEN + len..];
      value := f.read(payload);
      error := if value.None? then Some(Malformed) else None;
    }

    /** One arriving chunk: appended, then decoded as far as it goes. */
    method Receive<E>(f: Format<E>, src: ByteBuffer, chunk: seq<Byte>) returns (values: seq<E>, error: Option<WireError>)
      requires Valid()
      modifies src
      ensures Drained(values, src.bytes, error) == DecodeAll(f, maxPayload, old(src.bytes) + chunk)
    {
      src.bytes := src.bytes + chunk;
      values := [];
      ghost var all := DecodeAll(f, maxPayload, src.bytes);
      while true
        invariant var d := DecodeAll(f, maxPayload, src.bytes);
                  all == Drained(values + d.values, d.rest, d.error)
        decreases |src.bytes|
      {
        ghost var before := src.bytes;
        var value;
        value, error := Decode(f, src);
        if error.Some? || value.None? {
          assert values + [] == values;
          return;
        }
        ghost var d := DecodeAll(f, maxPayload, src.bytes);
        assert values + ([value.value] + d.values) == (values + [value.value]) + d.values;
        values := values + [value.value];
      }
    }
  }
}
