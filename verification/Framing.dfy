/**
 Messages on the wire: an eight-byte header and the data, padded with zeros to a multiple of
 sixteen bytes. What one side sends is what the other side reads.
 */
module Framing {
  import opened Common
  import opened LittleEndian

  const TWO32: int := 0x1_0000_0000
  const MAX_MESSAGE_SIZE: int := 1024 * 1024 * 2
  const HEADER: int := 8
  const LEFTOVER: int := 16 - HEADER

  datatype Message = Message(kind: nat, data: seq<byte>)

  predicate MessageOk(m: Message)
  {
    m.kind < TWO32 && |m.data| <= MAX_MESSAGE_SIZE
  }

  function Zeros(n: nat): (s: seq<byte>)
    ensures |s| == n
  {
    seq(n, _ => 0)
  }

  /** The size of a message on the wire, as the sender computes it. */
  function SentSize(size: nat): nat
  {
    16 * ((HEADER + size + 15) / 16)
  }

  /** How much the receiver reads after the first sixteen bytes; the difference wraps at 32 bits. */
  function RestSize(size: nat): nat
  {
    16 * ((((size - LEFTOVER) % TWO32 + 15) % TWO32) / 16)
  }

  /** Both ends agree on the size, also where the receiver's subtraction wraps. */
  lemma SizesAgree(size: nat)
    requires size <= MAX_MESSAGE_SIZE
    ensures 16 + RestSize(size) == SentSize(size) >= HEADER + size
    ensures LEFTOVER + RestSize(size) >= size
  {
  }

  function Packet(m: Message): (s: seq<byte>)
  {
    var body := Bytes(|m.data|, 4) + Bytes(m.kind, 4) + m.data;
    body + Zeros(SentSize(|m.data|) - HEADER - |m.data|)
  }

  function Stream(ms: seq<Message>): seq<byte>
  {
    if ms == [] then [] else Packet(ms[0]) + Stream(ms[1..])
  }

  /** `send_message`: header, data and padding are copied into one buffer. */
  method Send(m: Message) returns (packet: seq<byte>)
    ensures packet == Packet(m)
  {
    hide Bytes;
    var size := HEADER + |m.data|;
    var padded := SentSize(|m.data|);
    var buffer := new byte[padded];
    var header := Bytes(|m.data|, 4) + Bytes(m.kind, 4);
    var i := 0;
    while i < padded
      invariant 0 <= i <= padded
      invariant forall j :: 0 <= j < i ==>
                buffer[j] == if j < HEADER then header[j] else if j < size then m.data[j - HEADER] else 0
    {
      buffer[i] := if i < HEADER then header[i] else if i < size then m.data[i - HEADER] else 0;
      i := i + 1;
    }
    packet := buffer[..];
    assert packet == Packet(m);
  }

  lemma FourBytes(n: nat)
    requires n < TWO32
    ensures Value(Bytes(n, 4)) == n
  {
    assert Power(4) == TWO32;
    BytesValue(n, 4);
  }

  /** The fields of a packet, wherever it stands in a stream. */
  lemma PacketFields(m: Message, s: seq<byte>, at: nat)
    requires MessageOk(m) && at + SentSize(|m.data|) <= |s| && s[at..at + SentSize(|m.data|)] == Packet(m)
    ensures Value(s[at..at + 4]) == |m.data| && Value(s[at + 4..at + 8]) == m.kind
    ensures s[at + HEADER..at + HEADER + |m.data|] == m.data
  {
    hide Bytes, Value;
    FourBytes(|m.data|);
    FourBytes(m.kind);
    var q := s[at..at + SentSize(|m.data|)];
    Slice(s, at, SentSize(|m.data|), 0, 4);
    Slice(s, at, SentSize(|m.data|), 4, 8);
    Slice(s, at, SentSize(|m.data|), HEADER, HEADER + |m.data|);
    assert q[0..4] == Bytes(|m.data|, 4);
    assert q[4..8] == Bytes(m.kind, 4);
    assert q[HEADER..HEADER + |m.data|] == m.data;
  }

  lemma Slice(s: seq<byte>, at: nat, n: nat, i: nat, j: nat)
    requires i <= j <= n && at + n <= |s|
    ensures s[at..at + n][i..j] == s[at + i..at + j]
  {
    var a, b := s[at..at + n][i..j], s[at + i..at + j];
    forall k | 0 <= k < |a| ensures a[k] == b[k] { }
  }

  /** One turn of `read_loop`: the message at `pos`, and where the next one starts. */
  method ReadOne(s: seq<byte>, pos: nat, ghost m: Message) returns (r: Option<(Message, nat)>)
    requires pos <= |s|
    ensures MessageOk(m) && pos + SentSize(|m.data|) <= |s| && s[pos..pos + SentSize(|m.data|)] == Packet(m) ==>
              r == Some((m, pos + SentSize(|m.data|)))
    ensures r.Some? ==> pos < r.value.1 <= |s|
  {
    if MessageOk(m) && pos + SentSize(|m.data|) <= |s| && s[pos..pos + SentSize(|m.data|)] == Packet(m) {
      PacketFields(m, s, pos);
    }
    hide Value, Packet;
    if pos + 16 > |s| { return None; }
    var size, kind := Value(s[pos..pos + 4]), Value(s[pos + 4..pos + 8]);
    if size > MAX_MESSAGE_SIZE { return None; }
    SizesAgree(size);
    var rest := RestSize(size);
    if pos + 16 + rest > |s| { return None; }
    var data := s[pos + HEADER..pos + 16] + s[pos + 16..pos + 16 + rest];
    assert data == s[pos + HEADER..pos + 16 + rest];
    data := data[..size];
    assert data == s[pos + HEADER..pos + HEADER + size];
    return Some((Message(kind, data), pos + 16 + rest));
  }

  /** What was sent, in order, is what is read. */
  method ReadLoop(s: seq<byte>, ghost ms: seq<Message>) returns (read: seq<Message>)
    requires s == Stream(ms) && forall i :: 0 <= i < |ms| ==> MessageOk(ms[i])
    ensures read == ms
  {
    hide Packet;
    read := [];
    var pos := 0;
    assert s[0..] == Stream(ms[0..]) by { assert ms[0..] == ms; }
    while pos < |s|
      invariant |read| <= |ms| && read == ms[..|read|]
      invariant pos <= |s| && s[pos..] == Stream(ms[|read|..])
      decreases |s| - pos
    {
      ghost var rest := ms[|read|..];
      SplitStream(rest, s, pos);
      var next := ReadOne(s, pos, rest[0]);
      read := read + [next.value.0];
      pos := next.value.1;
      assert rest[1..] == ms[|read|..];
    }
    if |read| < |ms| { SplitStream(ms[|read|..], s, pos); }
  }

  lemma SplitStream(ms: seq<Message>, s: seq<byte>, pos: nat)
    requires pos <= |s| && s[pos..] == Stream(ms)
    ensures ms == [] <==> pos == |s|
    ensures ms != [] ==> var n := SentSize(|ms[0].data|);
                         && n > 0 && pos + n <= |s|
                         && s[pos..pos + n] == Packet(ms[0]) && s[pos + n..] == Stream(ms[1..])
  {
    if ms != [] {
      var n := SentSize(|ms[0].data|);
      assert |Packet(ms[0])| == n;
      assert s[pos..pos + n] == s[pos..][..n];
      assert s[pos + n..] == s[pos..][n..];
    }
  }
}
