/**
 The relay loops. What the sockets do is an input: a script of read results (data, an error,
 or both at once) and one of write results.
*/
module Relay {
  import opened Wrappers
  import opened Sequences
  import opened RoutingSpec

  newtype byte = x: int | 0 <= x < 0x100

  datatype Error = Timeout | EOF | Broken

  datatype ReadResult = ReadResult(data: seq<byte>, err: Option<Error>)

  // A failing write may have sent part of its data.
  datatype WriteResult = Written | Failed(sent: nat)

  datatype End = StillOpen | WriteFailed | Stopped(err: Error)

  const LOGIN_SIZE := 20
  const SNIFF_BUFFER := 4096
  const COPY_BUFFER := 32768

  /** The reads fit the buffers they are made into. */
  predicate Fits(first: ReadResult, script: seq<ReadResult>) {
    |first.data| <= SNIFF_BUFFER && forall i :: 0 <= i < |script| ==> |script[i].data| <= COPY_BUFFER
  }

  predicate Fatal(r: ReadResult) {
    r.err.Some? && r.err.value != Timeout
  }

  /** The bytes the reads yield, up to the first error other than a timeout. */
  function StreamOf(script: seq<ReadResult>): seq<byte> {
    if script == [] then []
    else script[0].data + if Fatal(script[0]) then [] else StreamOf(script[1..])
  }

  /** How a loop that loses no write ends. */
  function EndOf(script: seq<ReadResult>): End {
    if script == [] then StillOpen
    else if Fatal(script[0]) then Stopped(script[0].err.value)
    else EndOf(script[1..])
  }

  /** What the i-th write of data puts on the wire. */
  function Sent(writes: seq<WriteResult>, i: nat, data: seq<byte>): seq<byte> {
    if i >= |writes| || writes[i].Written? then data
    else if writes[i].sent < |data| then data[..writes[i].sent]
    else data
  }

  predicate Fails(writes: seq<WriteResult>, i: nat) {
    i < |writes| && writes[i].Failed?
  }

  /** The uid a first packet carries: a little-endian word, if it has a login packet's size. */
  function SniffedUid(data: seq<byte>): (uid: nat)
    ensures uid < 0x1_0000_0000 && (|data| < LOGIN_SIZE ==> uid == 0)
  {
    if |data| < LOGIN_SIZE then 0
    else data[14] as int + 0x100 * (data[15] as int + 0x100 * (data[16] as int + 0x100 * (data[17] as int)))
  }

  /** The chunks the loop has to write, in order. */
  function Chunks(script: seq<ReadResult>): seq<seq<byte>> {
    if script == [] then []
    else
      var rest := if Fatal(script[0]) then [] else Chunks(script[1..]);
      if script[0].data == [] then rest else [script[0].data] + rest
  }

  function Joined(chunks: seq<seq<byte>>): seq<byte> {
    if chunks == [] then [] else Joined(chunks[..|chunks| - 1]) + chunks[|chunks| - 1]
  }

  // ---------- Sniffing ----------

  function Word(data: seq<byte>, i: nat): nat
    requires i + 2 <= |data|
  {
    data[i] as int + 0x100 * (data[i + 1] as int)
  }

  const USER_CONN := 3
  const LOGIN_ACK := 1
  const LOGIN_NACK := 2
  const CONNECTION_CHECK := 7

  /** What a chunk from the client is counted as: a login if it is large enough, whatever it
      contains. */
  function ClientSniff(data: seq<byte>): seq<Traffic> {
    if |data| >= LOGIN_SIZE then [LoginSeen] else []
  }

  /** What a chunk from the backend is counted as, by category and protocol number. */
  function BackendSniff(data: seq<byte>): seq<Traffic> {
    if |data| < 4 || Word(data, 0) != USER_CONN then []
    else if Word(data, 2) == LOGIN_NACK then [NackSeen]
    else if Word(data, 2) == LOGIN_ACK then [AckSeen]
    else if Word(data, 2) == CONNECTION_CHECK then [HeartbeatSeen]
    else []
  }

  /** Every chunk was written whole. */
  predicate DeliveredAll(chunks: seq<seq<byte>>, writes: seq<WriteResult>, out: seq<byte>, count: nat, written: nat) {
    && written == |chunks|
    && (forall k :: 0 <= k < written ==> !Fails(writes, k))
    && count == |out|
    && out == Joined(chunks)
  }

  /** Every chunk before the first failing write, and what that write still sent. */
  predicate DeliveredUntil(chunks: seq<seq<byte>>, writes: seq<WriteResult>, out: seq<byte>, count: nat, written: nat) {
    && 0 < written <= |chunks|
    && Fails(writes, written - 1) && (forall k :: 0 <= k < written - 1 ==> !Fails(writes, k))
    && count == |Joined(chunks[..written - 1])|
    && out == Joined(chunks[..written - 1]) + Sent(writes, written - 1, chunks[written - 1])
  }

  /** What has reached the other side after so many writes. */
  predicate Delivered(chunks: seq<seq<byte>>, writes: seq<WriteResult>, out: seq<byte>, count: nat, written: nat,
                      failed: bool)
  {
    if failed then DeliveredUntil(chunks, writes, out, count, written)
    else DeliveredAll(chunks, writes, out, count, written)
  }

  lemma {:induction false} JoinedTogether(a: seq<seq<byte>>, b: seq<seq<byte>>)
    ensures Joined(a + b) == Joined(a) + Joined(b)
  {
    if b == [] {
      assert a + b == a;
    } else {
      var n := |b| - 1;
      JoinedTogether(a, b[..n]);
      assert (a + b)[..|a| + n] == a + b[..n];
    }
  }

  lemma JoinedFirst(data: seq<byte>, chunks: seq<seq<byte>>)
    ensures Joined([data] + chunks) == data + Joined(chunks)
  {
    JoinedTogether([data], chunks);
    assert [data][..0] == [];
  }

  lemma {:induction false} ChunksAreStream(script: seq<ReadResult>)
    ensures Joined(Chunks(script)) == StreamOf(script)
  {
    if script != [] {
      var data := script[0].data;
      if !Fatal(script[0]) {
        ChunksAreStream(script[1..]);
      }
      JoinedFirst(data, if Fatal(script[0]) then [] else Chunks(script[1..]));
    }
  }

  lemma {:induction false} JoinedAt(cs: seq<seq<byte>>, k: nat)
    requires k < |cs|
    ensures Joined(cs) == Joined(cs[..k]) + (cs[k] + Joined(cs[k + 1..]))
  {
    assert cs == cs[..k] + ([cs[k]] + cs[k + 1..]);
    JoinedTogether(cs[..k], [cs[k]] + cs[k + 1..]);
    JoinedFirst(cs[k], cs[k + 1..]);
  }

  lemma PrefixOfWhole(before: seq<byte>, data: seq<byte>, after: seq<byte>, sent: seq<byte>)
    requires sent <= data
    ensures before + sent <= before + (data + after)
  {
  }

  /** Whatever fails, nothing is lost in the middle, reordered or repeated. */
  lemma DeliveredIsPrefix(chunks: seq<seq<byte>>, writes: seq<WriteResult>, out: seq<byte>,
                          count: nat, written: nat, failed: bool)
    requires Delivered(chunks, writes, out, count, written, failed)
    ensures out <= Joined(chunks) && (!failed ==> out == Joined(chunks))
  {
    if failed {
      var k := written - 1;
      JoinedAt(chunks, k);
      PrefixOfWhole(Joined(chunks[..k]), chunks[k], Joined(chunks[k + 1..]), Sent(writes, k, chunks[k]));
    }
  }

  lemma DeliverOne(chunks: seq<seq<byte>>, writes: seq<WriteResult>, out: seq<byte>, count: nat,
                   written: nat, data: seq<byte>, rest: seq<seq<byte>>)
    requires DeliveredAll(chunks, writes, out, count, written)
    ensures Fails(writes, written) ==>
              DeliveredUntil(chunks + ([data] + rest), writes, out + Sent(writes, written, data), count, written + 1)
    ensures !Fails(writes, written) ==>
              DeliveredAll(chunks + [data], writes, out + Sent(writes, written, data), count + |data|, written + 1)
  {
    assert (chunks + ([data] + rest))[..written] == chunks == (chunks + [data])[..written];
  }

  /** After i reads the loop has dealt with these chunks. */
  predicate Progress(script: seq<ReadResult>, i: nat, done: seq<seq<byte>>)
    requires i <= |script|
  {
    done + Chunks(script[i..]) == Chunks(script) && EndOf(script[i..]) == EndOf(script)
  }

  lemma ProgressStarts(script: seq<ReadResult>)
    ensures Progress(script, 0, [])
  {
    assert script[0..] == script;
  }

  lemma ProgressEnds(script: seq<ReadResult>, done: seq<seq<byte>>)
    requires Progress(script, |script|, done)
    ensures done == Chunks(script) && EndOf(script) == StillOpen
  {
    assert done + [] == done;
  }

  function With(done: seq<seq<byte>>, data: seq<byte>): seq<seq<byte>> {
    if data == [] then done else done + [data]
  }

  lemma WithRest(done: seq<seq<byte>>, data: seq<byte>, rest: seq<seq<byte>>)
    ensures With(done, data) + rest == if data == [] then done + rest else done + ([data] + rest)
  {
  }

  lemma Unfolded(script: seq<ReadResult>, i: nat)
    requires i < |script|
    ensures var rest := if Fatal(script[i]) then [] else Chunks(script[i + 1..]);
            Chunks(script[i..]) == if script[i].data == [] then rest else [script[i].data] + rest
    ensures EndOf(script[i..]) == if Fatal(script[i]) then Stopped(script[i].err.value) else EndOf(script[i + 1..])
  {
    assert script[i..][0] == script[i] && script[i..][1..] == script[i + 1..];
  }

  lemma NextRead(script: seq<ReadResult>, i: nat, done: seq<seq<byte>>)
    returns (rest: seq<seq<byte>>)
    requires i < |script| && Progress(script, i, done)
    ensures script[i].data != [] ==> Chunks(script) == done + ([script[i].data] + rest)
    ensures !Fatal(script[i]) ==> Progress(script, i + 1, With(done, script[i].data))
    ensures Fatal(script[i]) ==>
              Chunks(script) == With(done, script[i].data) && EndOf(script) == Stopped(script[i].err.value)
  {
    rest := if Fatal(script[i]) then [] else Chunks(script[i + 1..]);
    Unfolded(script, i);
    WithRest(done, script[i].data, rest);
  }

  /** These events were counted up to the last write. */
  predicate Seen(sniff: seq<byte> -> seq<Traffic>, chunks: seq<seq<byte>>, written: nat, events: seq<Traffic>) {
    written <= |chunks| && events == Collected(sniff, chunks[..written])
  }

  lemma SeeOne(sniff: seq<byte> -> seq<Traffic>, done: seq<seq<byte>>, written: nat, events: seq<Traffic>,
               data: seq<byte>, rest: seq<seq<byte>>)
    requires Seen(sniff, done, written, events) && written == |done|
    ensures Seen(sniff, done + ([data] + rest), written + 1, events + sniff(data))
    ensures Seen(sniff, done + [data], written + 1, events + sniff(data))
  {
    assert done[..written] == done;
    assert (done + [data])[..written] == done;
    assert (done + [data])[..written + 1] == done + [data] == (done + ([data] + rest))[..written + 1];
  }

  /** Forwards one chunk: sniffs it, writes it, and adds it to the byte count once it is written. */
  method Forward(sniff: seq<byte> -> seq<Traffic>, data: seq<byte>, writes: seq<WriteResult>,
                 out0: seq<byte>, count0: nat, written0: nat, events0: seq<Traffic>,
                 ghost done: seq<seq<byte>>, ghost rest: seq<seq<byte>>)
    returns (out: seq<byte>, count: nat, written: nat, events: seq<Traffic>, failed: bool)
    requires DeliveredAll(done, writes, out0, count0, written0) && Seen(sniff, done, written0, events0)
    ensures failed ==>
              var all := done + ([data] + rest);
              DeliveredUntil(all, writes, out, count, written) && Seen(sniff, all, written, events)
    ensures !failed ==>
              var now := done + [data];
              DeliveredAll(now, writes, out, count, written) && Seen(sniff, now, written, events)
  {
    DeliverOne(done, writes, out0, count0, written0, data, rest);
    SeeOne(sniff, done, written0, events0, data, rest);
    out, count, written, events := out0, count0, written0, events0 + sniff(data);
    failed := Fails(writes, written);
    out, written := out + Sent(writes, written, data), written + 1;
    if !failed {
      count := count + |data|;
    }
  }

  /** Reads with a deadline and writes on: a timeout only means trying again, data that comes
      with an error is still forwarded, any other error ends the loop. */
  method Copy(sniff: seq<byte> -> seq<Traffic>, script: seq<ReadResult>, writes: seq<WriteResult>)
    returns (out: seq<byte>, count: nat, written: nat, events: seq<Traffic>, end: End)
    ensures Delivered(Chunks(script), writes, out, count, written, end == WriteFailed)
    ensures end != WriteFailed ==> end == EndOf(script)
    ensures Seen(sniff, Chunks(script), written, events)
  {
    out, count, written, events := [], 0, 0, [];
    ghost var done: seq<seq<byte>> := [];
    ProgressStarts(script);
    var i := 0;
    while i < |script|
      invariant 0 <= i <= |script| && Progress(script, i, done)
      invariant DeliveredAll(done, writes, out, count, written)
      invariant Seen(sniff, done, written, events)
    {
      var r := script[i];
      ghost var rest := NextRead(script, i, done);
      ghost var before := done;
      done := With(done, r.data);
      if |r.data| > 0 {
        var failed;
        out, count, written, events, failed :=
          Forward(sniff, r.data, writes, out, count, written, events, before, rest);
        if failed {
          end := WriteFailed;
          return;
        }
      }
      if r.err.Some? {
        if r.err.value != Timeout {
          end := Stopped(r.err.value);
          return;
        }
      }
      i := i + 1;
    }
    ProgressEnds(script, done);
    end := StillOpen;
  }

  /** Everything the client sends: the sniffed first read, whatever error came with it, then
      what the loop reads. */
  function ClientStream(first: ReadResult, script: seq<ReadResult>): seq<byte> {
    first.data + StreamOf(script)
  }

  function ClientChunks(first: ReadResult, script: seq<ReadResult>): seq<seq<byte>> {
    if first.data == [] then Chunks(script) else [first.data] + Chunks(script)
  }

  function Rest<T>(s: seq<T>): seq<T> {
    if s == [] then [] else s[1..]
  }

  lemma DeliveredAfter(chunks: seq<seq<byte>>, writes: seq<WriteResult>, out: seq<byte>, count: nat,
                       written: nat, failed: bool, data: seq<byte>)
    requires Delivered(chunks, Rest(writes), out, count, written, failed) && !Fails(writes, 0)
    ensures Delivered([data] + chunks, writes, data + out, |data| + count, written + 1, failed)
  {
    forall k | 1 <= k
      ensures Fails(writes, k) <==> Fails(Rest(writes), k - 1)
    {
    }
    if failed {
      var k := written - 1;
      assert ([data] + chunks)[..written] == [data] + chunks[..k];
      JoinedFirst(data, chunks[..k]);
      assert Sent(writes, written, chunks[k]) == Sent(Rest(writes), k, chunks[k]);
    } else {
      JoinedFirst(data, chunks);
    }
  }

  lemma FirstWrite(data: seq<byte>, writes: seq<WriteResult>, rest: seq<seq<byte>>)
    ensures Fails(writes, 0) ==> DeliveredUntil([data] + rest, writes, Sent(writes, 0, data), 0, 1)
    ensures !Fails(writes, 0) ==> Sent(writes, 0, data) == data
  {
    assert ([data] + rest)[..0] == [];
  }

  lemma ClientChunksAreStream(first: ReadResult, script: seq<ReadResult>)
    ensures Joined(ClientChunks(first, script)) == ClientStream(first, script)
  {
    ChunksAreStream(script);
    JoinedFirst(first.data, Chunks(script));
  }

  /** What delivery of the client's chunks means for the stream. */
  lemma ClientDelivered(first: ReadResult, script: seq<ReadResult>, writes: seq<WriteResult>,
                        out: seq<byte>, count: nat, written: nat, failed: bool)
    requires Delivered(ClientChunks(first, script), writes, out, count, written, failed)
    ensures out <= ClientStream(first, script) && (!failed ==> out == ClientStream(first, script))
  {
    ClientChunksAreStream(first, script);
    DeliveredIsPrefix(ClientChunks(first, script), writes, out, count, written, failed);
  }

  lemma FirstThenRest(first: ReadResult, script: seq<ReadResult>, writes: seq<WriteResult>,
                      out: seq<byte>, count: nat, written: nat, failed: bool, events: seq<Traffic>)
    requires first.data != [] && !Fails(writes, 0)
    requires Delivered(Chunks(script), Rest(writes), out, count, written, failed)
    requires Seen(ClientSniff, Chunks(script), written, events)
    ensures Delivered(ClientChunks(first, script), writes, first.data + out, |first.data| + count, written + 1, failed)
    ensures Seen(ClientSniff, ClientChunks(first, script), written + 1, ClientSniff(first.data) + events)
  {
    DeliveredAfter(Chunks(script), writes, out, count, written, failed, first.data);
    SeeFirst(first.data, Chunks(script), written, events);
  }

  lemma SeeFirst(data: seq<byte>, chunks: seq<seq<byte>>, written: nat, events: seq<Traffic>)
    requires Seen(ClientSniff, chunks, written, events)
    ensures Seen(ClientSniff, [data] + chunks, written + 1, ClientSniff(data) + events)
  {
    assert ([data] + chunks)[..written + 1] == [data] + chunks[..written];
    CollectedFirst(ClientSniff, data, chunks[..written]);
  }

  /** The client side of a connection: the first read was taken for sniffing and is forwarded
      before the loop starts. Nothing is lost, reordered or repeated: what reaches the backend
      is a prefix of what the client sent, and all of it as long as no write fails. */
  method ForwardClient(first: ReadResult, script: seq<ReadResult>, writes: seq<WriteResult>)
    returns (out: seq<byte>, bytesRead: nat, written: nat, events: seq<Traffic>, end: End)
    ensures Delivered(ClientChunks(first, script), writes, out, bytesRead, written, end == WriteFailed)
    ensures Seen(ClientSniff, ClientChunks(first, script), written, events)
    ensures out <= ClientStream(first, script)
    ensures end != WriteFailed ==> out == ClientStream(first, script) && end == EndOf(script)
  {
    out, bytesRead, written, events := [], 0, 0, [];
    if |first.data| > 0 {
      events := ClientSniff(first.data);
      out, written := Sent(writes, 0, first.data), 1;
      FirstWrite(first.data, writes, Chunks(script));
      if Fails(writes, 0) {
        end := WriteFailed;
        SeeFirst(first.data, Chunks(script), 0, []);
        ClientDelivered(first, script, writes, out, bytesRead, written, true);
        return;
      }
      bytesRead := |first.data|;
    }
    var rest, count, more, later, e := Copy(ClientSniff, script, if written == 1 then Rest(writes) else writes);
    if written == 1 {
      FirstThenRest(first, script, writes, rest, count, more, e == WriteFailed, later);
    } else {
      assert out + rest == rest && events + later == later;
    }
    out, bytesRead, written, events, end := out + rest, bytesRead + count, written + more, events + later, e;
    ClientDelivered(first, script, writes, out, bytesRead, written, end == WriteFailed);
  }

  /** The backend side: only an error that is neither a timeout nor the end of the stream is
      held against the backend. */
  method ForwardBackend(script: seq<ReadResult>, writes: seq<WriteResult>, backendIdx: int)
    returns (out: seq<byte>, bytesWritten: nat, written: nat, events: seq<Traffic>, end: End)
    ensures Delivered(Chunks(script), writes, out, bytesWritten, written, end == WriteFailed)
    ensures out <= StreamOf(script)
    ensures end != WriteFailed ==> out == StreamOf(script) && end == EndOf(script)
    ensures BackendEvents(script, written, end == WriteFailed, backendIdx, events)
  {
    out, bytesWritten, written, events, end := Copy(BackendSniff, script, writes);
    DeliveredIsPrefix(Chunks(script), writes, out, bytesWritten, written, end == WriteFailed);
    ChunksAreStream(script);
    StopsOnFatal(script);
    if end.Stopped? && end.err != EOF && backendIdx >= 0 {
      events := events + [TimeoutSeen];
    }
  }

  /** What the backend's loop counts: what it sniffed, and a timeout when the stream broke. */
  predicate BackendEvents(script: seq<ReadResult>, written: nat, failed: bool, backendIdx: int, events: seq<Traffic>) {
    && written <= |Chunks(script)|
    && events == Collected(BackendSniff, Chunks(script)[..written])
                 + if !failed && EndOf(script) == Stopped(Broken) && backendIdx >= 0 then [TimeoutSeen] else []
  }

  lemma {:induction false} StopsOnFatal(script: seq<ReadResult>)
    ensures EndOf(script) != Stopped(Timeout) && EndOf(script) != WriteFailed
  {
    if script != [] && !Fatal(script[0]) {
      StopsOnFatal(script[1..]);
    }
  }

  // ---------- What sniffing sees depends on the chunks ----------

  /** The logins a client's reads are counted as when every write succeeds. */
  function ClientLogins(first: ReadResult, script: seq<ReadResult>): nat {
    |Collected(ClientSniff, ClientChunks(first, script))|
  }

  lemma {:induction false} LoginsBound(chunks: seq<seq<byte>>)
    ensures LOGIN_SIZE * |Collected(ClientSniff, chunks)| <= |Joined(chunks)|
  {
    if chunks != [] {
      LoginsBound(chunks[..|chunks| - 1]);
    }
  }

  /** However the stream arrives, it counts as at most one login per twenty bytes. */
  lemma ClientLoginsBound(first: ReadResult, script: seq<ReadResult>)
    ensures LOGIN_SIZE * ClientLogins(first, script) <= |ClientStream(first, script)|
  {
    LoginsBound(ClientChunks(first, script));
    ClientChunksAreStream(first, script);
  }

  /** Reads that yield one byte at a time. */
  function Bytewise(s: seq<byte>): (script: seq<ReadResult>)
    ensures forall i :: 0 <= i < |script| ==> |script[i].data| == 1
  {
    if s == [] then [] else [ReadResult([s[0]], None)] + Bytewise(s[1..])
  }

  lemma {:induction false} BytewiseCountsNone(s: seq<byte>)
    ensures StreamOf(Bytewise(s)) == s && Collected(ClientSniff, Chunks(Bytewise(s))) == []
  {
    if s != [] {
      var tail := Bytewise(s[1..]);
      BytewiseCountsNone(s[1..]);
      assert Bytewise(s)[1..] == tail;
      CollectedFirst(ClientSniff, [s[0]], Chunks(tail));
    }
  }

  /** A first read of data, the rest byte by byte. */
  lemma SplitCounts(data: seq<byte>, rest: seq<byte>)
    requires |data| <= LOGIN_SIZE
    ensures var first := ReadResult(data, None);
            && Fits(first, Bytewise(rest)) && ClientStream(first, Bytewise(rest)) == data + rest
            && ClientLogins(first, Bytewise(rest)) == if |data| == LOGIN_SIZE then 1 else 0
  {
    BytewiseCountsNone(rest);
    CollectedFirst(ClientSniff, data, Chunks(Bytewise(rest)));
  }

  /** The count depends on the chunks and not on the bytes: clients that send the stream s, in
      reads that fit the buffers, are all counted alike iff s is shorter than one login packet. */
  lemma LoginCountIsFixedIff(s: seq<byte>)
    ensures (forall f1, s1, f2, s2 ::
               Fits(f1, s1) && Fits(f2, s2) && ClientStream(f1, s1) == s && ClientStream(f2, s2) == s
               ==> ClientLogins(f1, s1) == ClientLogins(f2, s2)) <==>
            |s| < LOGIN_SIZE
  {
    if |s| < LOGIN_SIZE {
      forall f1, s1 | ClientStream(f1, s1) == s
        ensures ClientLogins(f1, s1) == 0
      {
        ClientLoginsBound(f1, s1);
      }
    } else {
      SplitCounts(s[..LOGIN_SIZE], s[LOGIN_SIZE..]);
      SplitCounts([], s);
      assert s[..LOGIN_SIZE] + s[LOGIN_SIZE..] == s && [] + s == s;
    }
  }

  // ---------- The sniffed uid ----------

  /** The four bytes of a word, lowest first. */
  function LittleEndian(uid: nat): (word: seq<byte>)
    requires uid < 0x1_0000_0000
  {
    var high := uid / 0x100 / 0x100;
    [(uid % 0x100) as byte, (uid / 0x100 % 0x100) as byte, (high % 0x100) as byte, (high / 0x100) as byte]
  }

  lemma WordDigits(uid: nat, a: nat, b: nat, c: nat, d: nat)
    requires a < 0x100 && b < 0x100 && c < 0x100 && d < 0x100
    ensures uid == a + 0x100 * (b + 0x100 * (c + 0x100 * d)) <==>
            a == uid % 0x100 && b == uid / 0x100 % 0x100
            && c == uid / 0x100 / 0x100 % 0x100 && d == uid / 0x100 / 0x100 / 0x100
  {
    var q1, q2 := uid / 0x100, uid / 0x100 / 0x100;
    assert uid == 0x100 * q1 + uid % 0x100 && q1 == 0x100 * q2 + q1 % 0x100 && q2 == 0x100 * (q2 / 0x100) + q2 % 0x100;
  }

  /** A first packet yields this uid iff it has a login's size and carries the uid at offset 14. */
  lemma SniffedUidIff(data: seq<byte>, uid: nat)
    requires 0 < uid < 0x1_0000_0000
    ensures SniffedUid(data) == uid <==> |data| >= LOGIN_SIZE && data[14..18] == LittleEndian(uid)
  {
    if |data| >= LOGIN_SIZE {
      WordDigits(uid, data[14] as int, data[15] as int, data[16] as int, data[17] as int);
      assert data[14..18] == [data[14], data[15], data[16], data[17]];
    }
  }
}
