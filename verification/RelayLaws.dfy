/**
 What the relay reads and counts, told in the reads made and in literal bytes, without the
 functions that compute it.
*/
module RelayLaws {
  import opened Wrappers
  import opened Sequences
  import opened RoutingSpec
  import opened Relay

  // ---------- What is read ----------

  predicate GoesOn(r: ReadResult) {
    r.err == None || r.err == Some(Timeout)
  }

  function ChunkOf(r: ReadResult): seq<seq<byte>> {
    if r.data == [] then [] else [r.data]
  }

  lemma {:induction false} AllGoesOn(script: seq<ReadResult>)
    requires forall k :: 0 <= k < |script| ==> GoesOn(script[k])
    ensures Chunks(script) == Collected(ChunkOf, script) && EndOf(script) == StillOpen
  {
    if script != [] {
      AllGoesOn(script[1..]);
      CollectedFirst(ChunkOf, script[0], script[1..]);
      assert [script[0]] + script[1..] == script;
    }
  }

  /** Reading ends with the first error that is not a timeout: its data still counts, what would
      follow does not, and it is what the loop ends with. */
  lemma {:induction false} ReadingStopsAt(script: seq<ReadResult>, k: nat)
    requires k < |script| && (script[k].err == Some(EOF) || script[k].err == Some(Broken))
    requires forall j :: 0 <= j < k ==> GoesOn(script[j])
    ensures Chunks(script) == Collected(ChunkOf, script[..k + 1]) && EndOf(script) == Stopped(script[k].err.value)
  {
    var first, rest := script[0], script[1..];
    if k == 0 {
      assert script[..1] == [first] && [first][..0] == [];
    } else {
      ReadingStopsAt(rest, k - 1);
      CollectedFirst(ChunkOf, first, rest[..k]);
      assert [first] + rest[..k] == script[..k + 1];
    }
  }

  /** The stream breaks off: the first error other than a timeout is not the end of the stream. */
  predicate BreaksOff(script: seq<ReadResult>) {
    exists k :: 0 <= k < |script| && script[k].err == Some(Broken) && forall j :: 0 <= j < k ==> GoesOn(script[j])
  }

  lemma {:induction false} FirstError(script: seq<ReadResult>) returns (k: nat)
    ensures k <= |script| && (forall j :: 0 <= j < k ==> GoesOn(script[j])) && (k < |script| ==> !GoesOn(script[k]))
  {
    k := 0;
    while k < |script| && GoesOn(script[k])
      invariant k <= |script| && forall j :: 0 <= j < k ==> GoesOn(script[j])
    {
      k := k + 1;
    }
  }

  lemma {:induction false} BrokenIsBreaksOff(script: seq<ReadResult>)
    ensures EndOf(script) == Stopped(Broken) <==> BreaksOff(script)
  {
    var k := FirstError(script);
    if k < |script| {
      match script[k].err.value {
        case EOF => ReadingStopsAt(script, k);
        case Broken => ReadingStopsAt(script, k);
        case Timeout =>
      }
    } else {
      AllGoesOn(script);
    }
  }

  // ---------- What is written ----------

  function BytesOf(chunks: seq<seq<byte>>): nat {
    if chunks == [] then 0 else BytesOf(chunks[..|chunks| - 1]) + |chunks[|chunks| - 1]|
  }

  lemma {:induction false} JoinedLength(chunks: seq<seq<byte>>)
    ensures |Joined(chunks)| == BytesOf(chunks)
  {
    if chunks != [] {
      JoinedLength(chunks[..|chunks| - 1]);
    }
  }

  /** Of all writes made only the last may have failed, and without a failure all are made. The
      byte count is that of the chunks written whole; a failing write may have sent a part more. */
  lemma WholeWritesAreCounted(chunks: seq<seq<byte>>, writes: seq<WriteResult>, out: seq<byte>, count: nat,
                              written: nat, failed: bool)
    requires Delivered(chunks, writes, out, count, written, failed)
    ensures written <= |chunks| && (failed ==> written > 0) && (!failed ==> written == |chunks|)
    ensures forall k :: 0 <= k < written ==>
              (k < |writes| && writes[k].Failed? <==> failed && k == written - 1)
    ensures count == BytesOf(chunks[..if failed then written - 1 else written])
    ensures failed ==> var sent, size := writes[written - 1].sent, |chunks[written - 1]|;
                       |out| == count + if sent < size then sent else size
    ensures !failed ==> |out| == count
  {
    var whole := if failed then written - 1 else written;
    JoinedLength(chunks[..whole]);
    assert !failed ==> chunks[..whole] == chunks;
    forall k | 0 <= k < written
      ensures k < |writes| && writes[k].Failed? <==> failed && k == written - 1
    {
      assert Fails(writes, k) <==> failed && k == written - 1;
    }
  }

  // ---------- What is counted ----------

  /** How many events are of this kind. */
  function Number(events: seq<Traffic>, kind: Traffic): nat {
    if events == [] then 0 else Number(events[..|events| - 1], kind) + if events[|events| - 1] == kind then 1 else 0
  }

  /** How many chunks start with these four bytes. */
  function StartingWith(chunks: seq<seq<byte>>, head: seq<byte>): nat {
    if chunks == [] then 0
    else
      var c := chunks[|chunks| - 1];
      StartingWith(chunks[..|chunks| - 1], head) + if |c| >= 4 && c[..4] == head then 1 else 0
  }

  /** How many chunks have at least twenty bytes. */
  function LoginSized(chunks: seq<seq<byte>>): nat {
    if chunks == [] then 0
    else LoginSized(chunks[..|chunks| - 1]) + if |chunks[|chunks| - 1]| >= 20 then 1 else 0
  }

  lemma {:induction false} NumberAppend(a: seq<Traffic>, b: seq<Traffic>, kind: Traffic)
    ensures Number(a + b, kind) == Number(a, kind) + Number(b, kind)
  {
    if b == [] {
      assert a + b == a;
    } else {
      var n := |b| - 1;
      NumberAppend(a, b[..n], kind);
      assert (a + b)[..|a| + n] == a + b[..n];
    }
  }

  lemma NumberOfOne(k: Traffic, kind: Traffic)
    ensures Number([k], kind) == if k == kind then 1 else 0
  {
    assert [k][..0] == [];
  }

  lemma SameFour(c: seq<byte>, a: byte, b: byte, d: byte, e: byte)
    requires |c| >= 4
    ensures c[..4] == [a, b, d, e] <==> c[0] == a && c[1] == b && c[2] == d && c[3] == e
  {
    assert c[..4] == [c[0], c[1], c[2], c[3]];
  }

  /** A reply is counted by its first four bytes: a refusal starts with 3, 0, 2, 0. */
  lemma ReplySniffed(c: seq<byte>)
    ensures var head := if |c| >= 4 then c[..4] else [];
            BackendSniff(c) ==
            if head == [3, 0, 2, 0] then [NackSeen]
            else if head == [3, 0, 1, 0] then [AckSeen]
            else if head == [3, 0, 7, 0] then [HeartbeatSeen]
            else []
  {
    if |c| >= 4 {
      SameFour(c, 3, 0, 2, 0);
      SameFour(c, 3, 0, 1, 0);
      SameFour(c, 3, 0, 7, 0);
      assert Word(c, 0) == 3 <==> c[0] == 3 && c[1] == 0;
      assert Word(c, 2) == 2 <==> c[2] == 2 && c[3] == 0;
      assert Word(c, 2) == 1 <==> c[2] == 1 && c[3] == 0;
      assert Word(c, 2) == 7 <==> c[2] == 7 && c[3] == 0;
    }
  }

  /** What replies are counted as: as many refusals, acknowledgements and heartbeats as chunks
      start with the bytes of each, and nothing else. */
  lemma {:induction false} RepliesAreCounted(chunks: seq<seq<byte>>)
    ensures var events := Collected(BackendSniff, chunks);
            && Number(events, NackSeen) == StartingWith(chunks, [3, 0, 2, 0])
            && Number(events, AckSeen) == StartingWith(chunks, [3, 0, 1, 0])
            && Number(events, HeartbeatSeen) == StartingWith(chunks, [3, 0, 7, 0])
            && Number(events, LoginSeen) == Number(events, TimeoutSeen) == 0
  {
    if chunks != [] {
      var n := |chunks| - 1;
      var before, one := Collected(BackendSniff, chunks[..n]), BackendSniff(chunks[n]);
      RepliesAreCounted(chunks[..n]);
      ReplySniffed(chunks[n]);
      forall kind
        ensures Number(before + one, kind) == Number(before, kind) + if one == [kind] then 1 else 0
      {
        NumberAppend(before, one, kind);
        if one != [] {
          NumberOfOne(one[0], kind);
        }
      }
    }
  }

  /** What a client's chunks are counted as: a login for each of at least twenty bytes. */
  lemma {:induction false} LoginsAreCounted(chunks: seq<seq<byte>>)
    ensures var events := Collected(ClientSniff, chunks);
            && Number(events, LoginSeen) == LoginSized(chunks)
            && Number(events, NackSeen) == Number(events, AckSeen) == Number(events, HeartbeatSeen) == 0
            && Number(events, TimeoutSeen) == 0
  {
    if chunks != [] {
      var n := |chunks| - 1;
      var before, one := Collected(ClientSniff, chunks[..n]), ClientSniff(chunks[n]);
      LoginsAreCounted(chunks[..n]);
      forall kind
        ensures Number(before + one, kind) == Number(before, kind) + if one == [kind] then 1 else 0
      {
        NumberAppend(before, one, kind);
        if one != [] {
          NumberOfOne(one[0], kind);
        }
      }
      assert one == if |chunks[n]| >= 20 then [LoginSeen] else [];
    }
  }
}
