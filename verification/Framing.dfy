/** The length-prefixed messages of gps/libloc_api_50001/loc_eng_dmn_conn_glue_msg.c over a byte stream.
    A message starts with its own size in a size_t of four bytes, least significant first. */
module Framing {
  import opened ListSpec

  type Byte = x: int | 0 <= x < 256

  const HEADER := 4
  const SIZE_LIMIT := 0x1_0000_0000
  const SSIZE_MAX := 0x7FFF_FFFF

  /** The conversion of a size_t to an int. */
  function AsInt(n: nat): int
    requires n < SIZE_LIMIT
  {
    if n <= SSIZE_MAX then n else n - SIZE_LIMIT
  }

  /** The difference of two values of size_t. */
  function Minus(a: nat, b: nat): (r: nat)
    requires a < SIZE_LIMIT && b < SIZE_LIMIT
    ensures r < SIZE_LIMIT
  {
    if b <= a then a - b else a + SIZE_LIMIT - b
  }

  function Encode(n: nat): (r: seq<Byte>)
    requires n < SIZE_LIMIT
    ensures |r| == HEADER
  {
    [n % 256, n / 256 % 256, n / 65536 % 256, n / 16777216 % 256]
  }

  function Decode(b: seq<Byte>): (r: nat)
    requires |b| == HEADER
    ensures r < SIZE_LIMIT
  {
    b[0] as int + 256 * b[1] as int + 65536 * b[2] as int + 16777216 * b[3] as int
  }

  lemma DecodeEncode(n: nat)
    requires n < SIZE_LIMIT
    ensures Decode(Encode(n)) == n
    ensures var b := Encode(n); n == b[0] as int + 256 * b[1] as int + 65536 * b[2] as int + 16777216 * b[3] as int
  {
    var a := n / 256;
    var b := a / 256;
    var c := b / 256;
    assert n / 65536 == b && n / 16777216 == c;
  }

  // ----- The stream

  /** A named pipe with what has been written and not yet read. */
  class Pipe {
    var data: seq<Byte>

    /** write(2), which took `taken` bytes. */
    method Write(buf: array<Byte>, size: nat, taken: nat) returns (result: int)
      requires taken <= size <= buf.Length
      modifies this
      ensures data == old(data) + buf[..taken] && result == taken
    {
      data := data + buf[..taken];
      result := taken;
    }

    /** read(2) into buf[at..], getting what is asked for or all there is.  A count that does not fit an
        ssize_t is refused. */
    method Read(buf: array<Byte>, at: nat, size: nat) returns (result: int)
      requires size <= SSIZE_MAX ==> at + size <= buf.Length
      modifies this, buf
      ensures size > SSIZE_MAX ==> result == -1 && data == old(data) && buf[..] == old(buf[..])
      ensures size <= SSIZE_MAX ==>
        && result == (if size <= |old(data)| then size else |old(data)|)
        && data == old(data)[result..]
        && buf[..] == old(buf[..at]) + old(data)[..result] + old(buf[at + result..])
    {
      if size > SSIZE_MAX {
        return -1;
      }
      var n := if size <= |data| then size else |data|;
      var i := 0;
      while i < n
        invariant i <= n && data == old(data)
        invariant buf[..] == old(buf[..at]) + data[..i] + old(buf[at + i..])
      {
        buf[at + i] := data[i];
        i := i + 1;
      }
      data := data[n..];
      result := n;
    }
  }

  // ----- Sending and receiving

  /** loc_eng_dmn_conn_glue_msgsnd: stamps the size into the caller's buffer and writes it out.  A write
      takes no more than SSIZE_MAX bytes. */
  method MsgSnd(pipe: Pipe, msg: array<Byte>, msgsz: nat, taken: nat) returns (result: int)
    requires HEADER <= msg.Length && msgsz <= msg.Length && msgsz < SIZE_LIMIT
    requires taken <= msgsz && taken <= SSIZE_MAX
    modifies pipe, msg
    ensures msg[..] == Encode(msgsz) + old(msg[HEADER..])
    ensures pipe.data == old(pipe.data) + msg[..taken]
    ensures result == if taken == msgsz then msgsz else -1
  {
    var head := Encode(msgsz);
    msg[0], msg[1], msg[2], msg[3] := head[0], head[1], head[2], head[3];
    assert msg[..] == head + old(msg[HEADER..]);
    result := pipe.Write(msg, msgsz, taken);
    if result != AsInt(msgsz) {
      result := -1;
    }
  }

  /** What one receive does to the stream: the message, if it got one, and what is left.  A size of 3
      makes the second read ask for -1 bytes, whose refusal looks like success. */
  function Receive(data: seq<Byte>, bufsz: nat): (Option<seq<Byte>>, seq<Byte>) {
    if |data| < HEADER then (None, [])
    else
      var size := Decode(data[..HEADER]);
      if bufsz < size then (None, data[HEADER..])
      else if Minus(size, HEADER) > SSIZE_MAX then
        (if size == HEADER - 1 then Some(data[..size]) else None, data[HEADER..])
      else if |data| < size then (None, [])
      else (Some(data[..size]), data[size..])
  }

  /** loc_eng_dmn_conn_glue_msgrcv into a buffer of `bufsz` bytes. */
  method MsgRcv(pipe: Pipe, buf: array<Byte>, bufsz: nat) returns (result: int)
    requires HEADER <= buf.Length && bufsz <= buf.Length
    modifies pipe, buf
    ensures var (msg, rest) := Receive(old(pipe.data), bufsz);
      && pipe.data == rest
      && match msg
         case None => result == -1
         case Some(m) => |m| < SIZE_LIMIT && result == AsInt(|m|) && |m| <= buf.Length && buf[..|m|] == m
  {
    ghost var data := pipe.data;
    result := pipe.Read(buf, 0, HEADER);
    if result != HEADER {
      return -1;
    }
    var msgsz := Decode(buf[..HEADER]);
    assert buf[..HEADER] == data[..HEADER];
    if bufsz < msgsz {
      return -1;
    }
    var count := Minus(msgsz, HEADER);
    result := pipe.Read(buf, HEADER, count);
    if result != AsInt(count) {
      return -1;
    }
    assert buf[..msgsz] == data[..msgsz];
    result := AsInt(msgsz);
  }

  // ----- Any number of messages

  /** What msgsnd puts on the stream for a message. */
  predicate Framed(msg: seq<Byte>) {
    HEADER <= |msg| <= SSIZE_MAX && msg[..HEADER] == Encode(|msg|)
  }

  function Stream(msgs: seq<seq<Byte>>): seq<Byte> {
    if msgs == [] then [] else msgs[0] + Stream(msgs[1..])
  }

  /** The messages that `n` receives in a row get; one that fails is not repeated. */
  function ReceiveAll(data: seq<Byte>, n: nat, bufsz: nat): (r: (seq<seq<Byte>>, seq<Byte>))
    ensures |r.0| <= n
    decreases n
  {
    if n == 0 then ([], data)
    else
      var (msg, rest) := Receive(data, bufsz);
      var (more, end) := ReceiveAll(rest, n - 1, bufsz);
      (if msg.None? then more else [msg.value] + more, end)
  }

  /** One receive from a stream that starts with the size `n`.  A message that does not fit the buffer loses its size
      field and stays; one that has not come whole is lost; a size below 4 takes the size field alone, and 3
      passes for a message. */
  lemma ReceiveOutcome(n: nat, rest: seq<Byte>, bufsz: nat)
    requires n < SIZE_LIMIT
    ensures Receive(Encode(n) + rest, bufsz) ==
            if bufsz < n || n < 3 || n - 4 > SSIZE_MAX then (None, rest)
            else if n == 3 then (Some([3, 0, 0]), rest)
            else if |rest| < n - 4 then (None, [])
            else (Some(Encode(n) + rest[..n - 4]), rest[n - 4..])
  {
    var data := Encode(n) + rest;
    DecodeEncode(n);
    assert data[..HEADER] == Encode(n) && data[HEADER..] == rest;
    if n == 3 {
      assert data[..3] == [3, 0, 0];
    } else if 4 <= n <= |data| {
      assert data[..n] == Encode(n) + rest[..n - 4] && data[n..] == rest[n - 4..];
    }
  }

  lemma ShortStream(data: seq<Byte>, bufsz: nat)
    requires |data| < 4
    ensures Receive(data, bufsz) == (None, [])
  {
  }

  lemma ReceiveFirst(msg: seq<Byte>, tail: seq<Byte>, bufsz: nat)
    requires Framed(msg)
    ensures Receive(msg + tail, bufsz) ==
            if |msg| <= bufsz then (Some(msg), tail) else (None, (msg + tail)[HEADER..])
  {
    var data := msg + tail;
    assert data[..HEADER] == msg[..HEADER];
    DecodeEncode(|msg|);
    assert data[..|msg|] == msg && data[|msg|..] == tail;
  }

  predicate AllFit(msgs: seq<seq<Byte>>, bufsz: nat) {
    forall i :: 0 <= i < |msgs| ==> |msgs[i]| <= bufsz
  }

  lemma AllFitRest(msgs: seq<seq<Byte>>, bufsz: nat)
    requires msgs != []
    ensures AllFit(msgs, bufsz) <==> |msgs[0]| <= bufsz && AllFit(msgs[1..], bufsz)
  {
    assert forall i :: 0 <= i < |msgs| - 1 ==> msgs[1..][i] == msgs[i + 1];
    assert forall i :: 1 <= i < |msgs| ==> msgs[i] == msgs[1..][i - 1];
  }

  /** Receiving as often as was sent gives back exactly the messages, and leaves what came after them, if
      and only if each of them fits the buffer. */
  lemma {:induction false} RoundTrip(msgs: seq<seq<Byte>>, tail: seq<Byte>, bufsz: nat)
    requires forall i :: 0 <= i < |msgs| ==> Framed(msgs[i])
    ensures ReceiveAll(Stream(msgs) + tail, |msgs|, bufsz) == (msgs, tail) <==> AllFit(msgs, bufsz)
  {
    if msgs == [] {
      assert [] + tail == tail;
    } else {
      var rest := Stream(msgs[1..]) + tail;
      assert Stream(msgs) + tail == msgs[0] + rest;
      ReceiveFirst(msgs[0], rest, bufsz);
      RoundTrip(msgs[1..], tail, bufsz);
      AllFitRest(msgs, bufsz);
      if |msgs[0]| <= bufsz {
        var (more, end) := ReceiveAll(rest, |msgs| - 1, bufsz);
        assert [msgs[0]] + msgs[1..] == msgs && ([msgs[0]] + more)[1..] == more;
      }
    }
  }

  lemma {:induction false} StreamConcat(a: seq<seq<Byte>>, b: seq<seq<Byte>>)
    ensures Stream(a + b) == Stream(a) + Stream(b)
  {
    if a == [] {
      assert a + b == b;
    } else {
      assert (a + b)[0] == a[0] && (a + b)[1..] == a[1..] + b;
      StreamConcat(a[1..], b);
    }
  }

  /** The message a send of `msgsz` bytes makes of what is behind the size field. */
  function Outgoing(payload: seq<Byte>, msgsz: nat): (r: seq<Byte>)
    requires HEADER <= msgsz <= HEADER + |payload| && msgsz < SIZE_LIMIT
    ensures |r| == msgsz
  {
    (Encode(msgsz) + payload)[..msgsz]
  }

  /** What msgsnd leaves in the buffer, and with a full write on the stream, is framed. */
  lemma SentIsFramed(payload: seq<Byte>, msgsz: nat)
    requires HEADER <= msgsz <= HEADER + |payload| && msgsz <= SSIZE_MAX
    ensures Framed(Outgoing(payload, msgsz))
  {
    assert Outgoing(payload, msgsz)[..HEADER] == Encode(msgsz);
  }

  predicate Sendable(payloads: seq<seq<Byte>>, sizes: seq<nat>) {
    && |sizes| == |payloads|
    && forall i :: 0 <= i < |sizes| ==> HEADER <= sizes[i] <= HEADER + |payloads[i]| && sizes[i] <= SSIZE_MAX
  }

  /** The messages that several sends make. */
  function Outgoings(payloads: seq<seq<Byte>>, sizes: seq<nat>): (r: seq<seq<Byte>>)
    requires Sendable(payloads, sizes)
    ensures |r| == |sizes| && forall i :: 0 <= i < |r| ==> r[i] == Outgoing(payloads[i], sizes[i])
  {
    seq(|sizes|, i requires 0 <= i < |sizes| => Outgoing(payloads[i], sizes[i]))
  }

  /** What the buffers hold behind the size field. */
  ghost predicate Hold(bufs: seq<array<Byte>>, payloads: seq<seq<Byte>>)
    reads bufs
  {
    |payloads| == |bufs| &&
    forall j :: 0 <= j < |bufs| ==> HEADER <= bufs[j].Length && bufs[j][HEADER..] == payloads[j]
  }

  /** One send, taken whole by the pipe, of a buffer that may occur several times. */
  method SendOne(pipe: Pipe, bufs: seq<array<Byte>>, i: nat, msgsz: nat, ghost payloads: seq<seq<Byte>>)
    requires i < |bufs| && HEADER <= msgsz <= bufs[i].Length && msgsz <= SSIZE_MAX && Hold(bufs, payloads)
    modifies pipe, bufs[i]
    ensures Hold(bufs, payloads)
    ensures pipe.data == old(pipe.data) + Outgoing(payloads[i], msgsz)
  {
    var _ := MsgSnd(pipe, bufs[i], msgsz, msgsz);
    assert bufs[i][..] == Encode(msgsz) + payloads[i];
    assert bufs[i][..msgsz] == bufs[i][..][..msgsz];
    assert bufs[i][HEADER..] == bufs[i][..][HEADER..] == payloads[i];
  }

  lemma StreamNext(msgs: seq<seq<Byte>>, i: nat)
    requires i < |msgs|
    ensures Stream(msgs[..i + 1]) == Stream(msgs[..i]) + msgs[i]
  {
    StreamConcat(msgs[..i], [msgs[i]]);
    assert msgs[..i + 1] == msgs[..i] + [msgs[i]];
    assert Stream([msgs[i]]) == msgs[i];
  }

  /** Sends in a row. */
  method SendAll(pipe: Pipe, bufs: seq<array<Byte>>, sizes: seq<nat>, ghost payloads: seq<seq<Byte>>)
    requires Hold(bufs, payloads) && Sendable(payloads, sizes)
    modifies pipe, set b | b in bufs
    ensures pipe.data == old(pipe.data) + Stream(Outgoings(payloads, sizes))
  {
    ghost var msgs := Outgoings(payloads, sizes);
    var i := 0;
    assert Stream(msgs[..0]) == [];
    while i < |bufs|
      invariant i <= |bufs| && Hold(bufs, payloads)
      invariant pipe.data == old(pipe.data) + Stream(msgs[..i])
    {
      SendOne(pipe, bufs, i, sizes[i], payloads);
      StreamNext(msgs, i);
      i := i + 1;
    }
    assert msgs[..i] == msgs;
  }

  /** The receiving side of loc_api_server_proc, called `n` times: a new buffer for each call, and after a
      failure the next call simply tries again. */
  method ServeAll(pipe: Pipe, bufsz: nat, n: nat) returns (received: seq<seq<Byte>>)
    requires HEADER <= bufsz <= SSIZE_MAX
    modifies pipe
    ensures (received, pipe.data) == ReceiveAll(old(pipe.data), n, bufsz)
  {
    received := [];
    var i := 0;
    assert [] + ReceiveAll(pipe.data, n, bufsz).0 == ReceiveAll(pipe.data, n, bufsz).0;
    while i < n
      invariant i <= n
      invariant var (more, end) := ReceiveAll(pipe.data, n - i, bufsz);
        (received + more, end) == ReceiveAll(old(pipe.data), n, bufsz)
    {
      var buf := new Byte[bufsz];
      ghost var data := pipe.data;
      var length := MsgRcv(pipe, buf, bufsz);
      ghost var more := ReceiveAll(pipe.data, n - i - 1, bufsz).0;
      if length > 0 {
        assert received + ([buf[..length]] + more) == (received + [buf[..length]]) + more;
        received := received + [buf[..length]];
      }
      i := i + 1;
    }
    assert received + [] == received;
  }

  lemma {:induction false} OldestFirst(all: seq<seq<Byte>>, n: nat, bufsz: nat)
    requires n <= |all| && forall i :: 0 <= i < |all| ==> Framed(all[i])
    ensures ReceiveAll(Stream(all), n, bufsz) == (all[..n], Stream(all[n..])) <==> AllFit(all[..n], bufsz)
  {
    var first, rest := all[..n], all[n..];
    assert all == first + rest;
    StreamConcat(first, rest);
    RoundTrip(first, Stream(rest), bufsz);
  }

  /** Both ends of one pipe.  Whatever is still in it, after more has been sent the next `n` receives get
      the oldest `n` messages and leave the others, if and only if each of those fits the buffer. */
  method Exchange(pipe: Pipe, ghost pending: seq<seq<Byte>>, bufs: seq<array<Byte>>, sizes: seq<nat>,
                  ghost payloads: seq<seq<Byte>>, bufsz: nat, n: nat)
    returns (received: seq<seq<Byte>>)
    requires pipe.data == Stream(pending) && forall i :: 0 <= i < |pending| ==> Framed(pending[i])
    requires Hold(bufs, payloads) && Sendable(payloads, sizes)
    requires HEADER <= bufsz <= SSIZE_MAX && n <= |pending| + |bufs|
    modifies pipe, set b | b in bufs
    ensures var all := pending + Outgoings(payloads, sizes);
      received == all[..n] && pipe.data == Stream(all[n..]) <==> AllFit(all[..n], bufsz)
  {
    ghost var sent := Outgoings(payloads, sizes);
    SendAll(pipe, bufs, sizes, payloads);
    StreamConcat(pending, sent);
    forall i | 0 <= i < |sent| ensures Framed(sent[i]) {
      SentIsFramed(payloads[i], sizes[i]);
    }
    received := ServeAll(pipe, bufsz, n);
    OldestFirst(pending + sent, n, bufsz);
  }
}
