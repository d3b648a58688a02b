/** How the cutting of the byte stream into reads shows, and does not show, in what Rust listeners hear. */
module RustChunking {
  import opened Bytes
  import opened Dispatch
  import opened Framing
  import opened Protocol
  import opened RustReader

  lemma {:induction false} ScanKinds(buf: seq<byte>)
    ensures forall i :: 0 <= i < |Scan(Rust, buf).items| ==> !Scan(Rust, buf).items[i].Cleared?
    ensures !Scan(Rust, buf).stop.AtUnreadable?
    ensures Scan(Rust, buf).stop.AtBadMagic? ==> |Scan(Rust, buf).rest| >= HEADER_SIZE
    decreases |buf|
  {
    var next := NextItem(Rust, buf);
    if next.Consume? {
      ScanKinds(buf[|Raw(next.item)|..]);
    }
  }

  lemma QuietScan(buf: seq<byte>)
    requires Quiet(Rust, buf)
    ensures Scan(Rust, buf) == Scanned([], buf, Live)
  {
  }

  /** Reading `first` and then the rest is one resumed scan. */
  lemma ScanOfJoin(buf: seq<byte>, chunks: seq<seq<byte>>)
    requires chunks != []
    ensures Scan(Rust, buf + Join(chunks)) == Resume(Rust, Scan(Rust, buf + chunks[0]), Join(chunks[1..]))
  {
    hide Scan, Resume;
    ConcatAssoc(buf, chunks[0], Join(chunks[1..]));
    ScanResumes(Rust, buf + chunks[0], Join(chunks[1..]));
  }

  /**
   * A run of reads against the one-shot parse of the same bytes. Without a bad magic they agree
   * outright. With one, the run takes the same pieces up to it, throws away `raw`, the part of the
   * rest that had arrived by then, and starts afresh on the reads in `later`.
   */
  lemma {:induction false} RunAgainstScan(buf: seq<byte>, chunks: seq<seq<byte>>)
    returns (seen: seq<byte>, raw: seq<byte>, later: seq<seq<byte>>)
    requires Quiet(Rust, buf)
    ensures var s, run := Scan(Rust, buf + Join(chunks)), RustRun(buf, chunks);
            if s.stop.AtBadMagic? then
              && seen + Join(later) == Join(chunks) && Scan(Rust, buf + seen).stop.AtBadMagic?
              && |raw| >= HEADER_SIZE && raw + Join(later) == s.rest
              && run.items == s.items + [Cleared(s.stop.code, raw)] + RustRun([], later).items
              && run.rest == RustRun([], later).rest
            else
              run == Turn(s.items, s.rest)
    decreases |chunks|
  {
    seen, raw, later := [], [], [];
    if chunks == [] {
      assert buf + Join(chunks) == buf;
      QuietScan(buf);
      return;
    }
    var first, more := Scan(Rust, buf + chunks[0]), chunks[1..];
    ScanOfJoin(buf, chunks);
    ScanKinds(buf + chunks[0]);
    RestIsFinal(Rust, buf + chunks[0]);
    if first.stop.Live? {
      seen, raw, later := RunAgainstScan(first.rest, more);
      FirstReadLive(buf, chunks, seen, raw, later);
      seen := chunks[0] + seen;
    } else {
      seen, raw, later := chunks[0], first.rest, more;
    }
  }

  lemma FirstReadLive(buf: seq<byte>, chunks: seq<seq<byte>>, seen: seq<byte>, raw: seq<byte>, later: seq<seq<byte>>)
    requires chunks != [] && Scan(Rust, buf + chunks[0]).stop.Live?
    requires var first := Scan(Rust, buf + chunks[0]);
             var s, run := Scan(Rust, first.rest + Join(chunks[1..])), RustRun(first.rest, chunks[1..]);
             if s.stop.AtBadMagic? then
               && seen + Join(later) == Join(chunks[1..]) && Scan(Rust, first.rest + seen).stop.AtBadMagic?
               && run.items == s.items + [Cleared(s.stop.code, raw)] + RustRun([], later).items
               && run.rest == RustRun([], later).rest
             else
               run == Turn(s.items, s.rest)
    ensures var first := Scan(Rust, buf + chunks[0]);
            var r, run := Scan(Rust, first.rest + Join(chunks[1..])), RustRun(buf, chunks);
            var items := first.items + r.items;
            if r.stop.AtBadMagic? then
              && (chunks[0] + seen) + Join(later) == Join(chunks)
              && Scan(Rust, buf + (chunks[0] + seen)).stop.AtBadMagic?
              && run.items == items + [Cleared(r.stop.code, raw)] + RustRun([], later).items
              && run.rest == RustRun([], later).rest
            else
              run == Turn(items, r.rest)
  {
    var first := Scan(Rust, buf + chunks[0]);
    var r := Scan(Rust, first.rest + Join(chunks[1..]));
    assert RustTurn(buf + chunks[0]) == Turn(first.items, first.rest);
    hide Scan, RustTurn;
    if r.stop.AtBadMagic? {
      ConcatAssoc(chunks[0], seen, Join(later));
      ConcatAssoc(buf, chunks[0], seen);
      ScanResumes(Rust, buf + chunks[0], seen);
      var cleared, tail := [Cleared(r.stop.code, raw)], RustRun([], later).items;
      ConcatAssoc(first.items, r.items + cleared, tail);
      ConcatAssoc(first.items, r.items, cleared);
    }
  }

  // ---------------------------------------------------------------- conservation

  lemma TurnConserves(buf: seq<byte>)
    ensures Raws(RustTurn(buf).items) + RustTurn(buf).rest == buf
    ensures Quiet(Rust, RustTurn(buf).rest)
  {
    var s := Scan(Rust, buf);
    ScanIsTheReading(Rust, buf, s);
    ScanKinds(buf);
    RestIsFinal(Rust, buf);
    if s.stop.AtBadMagic? {
      var cleared := Cleared(s.stop.code, s.rest);
      RawsConcat(s.items, [cleared]);
      assert Raws([cleared]) == s.rest + Raws([]) == s.rest;
    }
  }

  /**
   * Bytes are conserved over any run of reads: delivered frames, skipped headers, discarded
   * buffers and the bytes still waiting, in order, are exactly the bytes received. What is left
   * waiting never holds a complete frame.
   */
  lemma {:induction false} RunConserves(buf: seq<byte>, chunks: seq<seq<byte>>)
    requires Quiet(Rust, buf)
    ensures Raws(RustRun(buf, chunks).items) + RustRun(buf, chunks).rest == buf + Join(chunks)
    ensures Quiet(Rust, RustRun(buf, chunks).rest)
    decreases |chunks|
  {
    hide RustTurn, Quiet;
    if chunks == [] {
      assert Raws([]) + buf == buf + [];
    } else {
      var turn := RustTurn(buf + chunks[0]);
      var later := RustRun(turn.rest, chunks[1..]);
      TurnConserves(buf + chunks[0]);
      RunConserves(turn.rest, chunks[1..]);
      RawsConcat(turn.items, later.items);
      ConcatAssoc(Raws(turn.items), Raws(later.items), later.rest);
      ConcatAssoc(Raws(turn.items), turn.rest, Join(chunks[1..]));
      ConcatAssoc(buf, chunks[0], Join(chunks[1..]));
    }
  }

  lemma {:induction false} ItemsTakeSpace(items: seq<Item>)
    requires forall i :: 0 <= i < |items| ==> |Raw(items[i])| >= HEADER_SIZE
    ensures HEADER_SIZE * |items| <= |Raws(items)|
  {
    if items != [] {
      assert |Raw(items[0])| >= HEADER_SIZE;
      ItemsTakeSpace(items[1..]);
    }
  }

  lemma {:induction false} RunItemsAreLong(buf: seq<byte>, chunks: seq<seq<byte>>)
    ensures forall i :: 0 <= i < |RustRun(buf, chunks).items| ==> |Raw(RustRun(buf, chunks).items[i])| >= HEADER_SIZE
    decreases |chunks|
  {
    if chunks != [] {
      TurnItemsAreLong(buf + chunks[0]);
      hide RustTurn, Raw;
      RunItemsAreLong(RustTurn(buf + chunks[0]).rest, chunks[1..]);
    }
  }

  lemma {:induction false} TurnItemsAreLong(buf: seq<byte>)
    ensures forall i :: 0 <= i < |RustTurn(buf).items| ==> |Raw(RustTurn(buf).items[i])| >= HEADER_SIZE
    decreases |buf|
  {
    var next := NextItem(Rust, buf);
    if next.Consume? {
      TurnItemsAreLong(buf[|Raw(next.item)|..]);
      TurnConsumes(buf, next.item);
      hide NextItem, RustTurn, Raw;
    } else {
      TurnEnds(buf);
    }
  }

  /** Every turn of the loop that does anything takes at least a header's worth of bytes. */
  lemma EachItemTakesAHeader(chunks: seq<seq<byte>>)
    ensures HEADER_SIZE * |RustRun([], chunks).items| + |RustRun([], chunks).rest| <= |Join(chunks)|
  {
    QuietNothing();
    RunConserves([], chunks);
    RunItemsAreLong([], chunks);
    ItemsTakeSpace(RustRun([], chunks).items);
    hide RustRun;
  }

  // ---------------------------------------------------------------- chunk independence

  /** The log up to and including the first magic error. */
  function ThroughBadMagic(log: seq<Signal>): seq<Signal> {
    if log == [] then []
    else if log[0].OnInvalidMagic? then [log[0]]
    else [log[0]] + ThroughBadMagic(log[1..])
  }

  predicate NoMagicError(log: seq<Signal>) {
    forall i :: 0 <= i < |log| ==> !log[i].OnInvalidMagic?
  }

  lemma {:induction false} ThroughConcat(a: seq<Signal>, b: seq<Signal>)
    requires NoMagicError(a)
    ensures ThroughBadMagic(a + b) == a + ThroughBadMagic(b)
  {
    if a == [] {
      assert a + b == b;
      assert [] + ThroughBadMagic(b) == ThroughBadMagic(b);
    } else {
      assert (a + b)[0] == a[0] && (a + b)[1..] == a[1..] + b;
      ThroughConcat(a[1..], b);
      ConcatAssoc([a[0]], a[1..], ThroughBadMagic(b));
      assert [a[0]] + a[1..] == a;
    }
  }

  lemma {:induction false} NoMagicErrorEmitted(items: seq<Item>)
    requires forall i :: 0 <= i < |items| ==> !items[i].Cleared?
    ensures NoMagicError(Emitted(Rust, items))
  {
    if items != [] {
      assert !items[0].Cleared?;
      assert NoMagicError(Emit(Rust, items[0]));
      NoMagicErrorEmitted(items[1..]);
    }
  }

  lemma OneRead(stream: seq<byte>)
    ensures RustRun([], [stream]) == RustTurn(stream)
  {
    hide RustTurn;
    var turn := RustTurn(stream);
    assert [] + stream == stream && [stream][1..] == [];
    assert RustRun(turn.rest, []) == Turn([], turn.rest);
    assert turn.items + [] == turn.items;
  }

  /** What listeners hear when a stream with a bad magic comes in one read, and in several. */
  lemma {:induction false} LogWithBadMagic(chunks: seq<seq<byte>>) returns (seen: seq<byte>, later: seq<seq<byte>>)
    requires Scan(Rust, Join(chunks)).stop.AtBadMagic?
    ensures var s := Scan(Rust, Join(chunks));
            && seen + Join(later) == Join(chunks) && Scan(Rust, seen).stop.AtBadMagic?
            && RustLog([Join(chunks)]) == Emitted(Rust, s.items) + [OnInvalidMagic(s.stop.code)]
            && RustLog(chunks) == RustLog([Join(chunks)]) + RustLog(later)
            && NoMagicError(Emitted(Rust, s.items))
  {
    hide Scan, RustTurn, RustRun, Emitted;
    var stream := Join(chunks);
    var s, raw := Scan(Rust, stream), [];
    assert [] + stream == stream;
    QuietNothing();
    seen, raw, later := RunAgainstScan([], chunks);
    assert [] + seen == seen;
    ScanKinds(stream);
    NoMagicErrorEmitted(s.items);
    OneRead(stream);
    BadMagicTurn(stream);
    HeardWithError(s.items, s.stop.code, raw, RustRun([], later).items);
  }

  lemma HeardWithError(items: seq<Item>, code: nat, raw: seq<byte>, more: seq<Item>)
    ensures Emitted(Rust, items + [Cleared(code, raw)] + more)
            == Emitted(Rust, items) + [OnInvalidMagic(code)] + Emitted(Rust, more)
  {
    hide Emitted;
    var cleared := Cleared(code, raw);
    EmittedConcat(Rust, items + [cleared], more);
    EmittedConcat(Rust, items, [cleared]);
    EmittedOne(Rust, cleared);
  }

  /**
   * Chunk independence. Up to and including the first magic error, listeners hear the same log
   * however the stream is cut into reads, malformed headers and rescans inside payloads included.
   * With no bad magic the whole log and the bytes left waiting agree as well.
   */
  lemma {:induction false} ChunkIndependence(chunks: seq<seq<byte>>)
    ensures ThroughBadMagic(RustLog(chunks)) == RustLog([Join(chunks)])
    ensures Scan(Rust, Join(chunks)).stop.Live? ==> RustRun([], chunks) == RustRun([], [Join(chunks)])
  {
    var s := Scan(Rust, Join(chunks));
    OneRead(Join(chunks));
    ScanKinds(Join(chunks));
    if s.stop.AtBadMagic? {
      var seen, later := LogWithBadMagic(chunks);
      hide Scan, RustLog;
      var before, error := Emitted(Rust, s.items), [OnInvalidMagic(s.stop.code)];
      ConcatAssoc(before, error, RustLog(later));
      ThroughConcat(before, error + RustLog(later));
    } else {
      var seen, raw, later := RunAgainstScan([], chunks);
      assert [] + Join(chunks) == Join(chunks);
      NoMagicErrorEmitted(s.items);
      ThroughConcat(RustLog(chunks), []);
      assert RustLog(chunks) + [] == RustLog(chunks);
    }
  }

  /** A stream without a bad magic, in any pieces: every frame of it is heard, in order. */
  lemma CleanRun(chunks: seq<seq<byte>>)
    requires Scan(Rust, Join(chunks)).stop.Live?
    ensures var s := Scan(Rust, Join(chunks));
            && RustRun([], chunks) == Turn(s.items, s.rest)
            && RustLog(chunks) == Emitted(Rust, s.items)
            && FramesHeard(RustLog(chunks)) == Frames(s.items)
  {
    hide Scan, Emitted, Frames, FramesHeard, RustRun;
    assert [] + Join(chunks) == Join(chunks);
    QuietNothing();
    var seen, raw, later := RunAgainstScan([], chunks);
    DispatchIsProjection(Rust, Scan(Rust, Join(chunks)).items);
  }

  lemma QuietNothing()
    ensures Quiet(Rust, [])
  {
  }

  // ---------------------------------------------------------------- past the first bad magic

  /** The log never depends on how the stream is cut. */
  ghost predicate EveryCutSoundsAlike(stream: seq<byte>) {
    forall chunks :: Join(chunks) == stream ==> RustLog(chunks) == RustLog([stream])
  }

  /** The loop has met a bad magic within the first `n` bytes. */
  predicate Noticed(stream: seq<byte>, n: nat)
    requires n <= |stream|
  {
    Scan(Rust, stream[..n]).stop.AtBadMagic?
  }

  function FirstTrue(flags: seq<bool>): (n: nat)
    requires flags != [] && flags[|flags| - 1]
    ensures n < |flags| && flags[n]
    ensures forall m :: 0 <= m < n ==> !flags[m]
  {
    if flags[0] then 0 else 1 + FirstTrue(flags[1..])
  }

  /** The least number of bytes after which the loop has met the bad magic. */
  function DetectionPoint(stream: seq<byte>): (point: nat)
    requires Noticed(stream, |stream|)
    ensures point <= |stream| && Noticed(stream, point)
    ensures forall m :: 0 <= m < point ==> !Noticed(stream, m)
  {
    var flags := seq(|stream| + 1, n requires 0 <= n <= |stream| => Noticed(stream, n));
    assert forall m :: 0 <= m <= |stream| ==> flags[m] == Noticed(stream, m);
    FirstTrue(flags)
  }

  /**
   * What a caller can check: the stream has no bad magic, or what follows the point where it is
   * first noticed is shorter than a header, or is one lone header still waiting for its payload.
   */
  predicate ResyncCannotShow(stream: seq<byte>) {
    Noticed(stream, |stream|) ==>
      var left := stream[DetectionPoint(stream)..];
      |left| < HEADER_SIZE || (|left| == HEADER_SIZE && Quiet(Rust, left))
  }

  lemma QuietRun(chunks: seq<seq<byte>>)
    requires Quiet(Rust, Join(chunks))
    ensures RustLog(chunks) == []
  {
    assert [] + Join(chunks) == Join(chunks);
    QuietScan(Join(chunks));
    var seen, raw, later := RunAgainstScan([], chunks);
  }

  lemma SafeStreamsSoundAlike(stream: seq<byte>, chunks: seq<seq<byte>>)
    requires ResyncCannotShow(stream) && Join(chunks) == stream
    ensures RustLog(chunks) == RustLog([stream])
  {
    ScanKinds(stream);
    assert stream[..|stream|] == stream;
    if Scan(Rust, stream).stop.AtBadMagic? {
      var seen, later := LogWithBadMagic(chunks);
      assert stream[..|seen|] == seen && stream[|seen|..] == Join(later);
      var point := DetectionPoint(stream);
      assert Noticed(stream, |seen|) && point <= |seen|;
      if |Join(later)| == HEADER_SIZE {
        assert |seen| == point;
      }
      QuietRun(later);
      assert RustLog([stream]) + [] == RustLog([stream]);
    } else {
      ChunkIndependence(chunks);
    }
  }

  lemma TwoReads(a: seq<byte>, b: seq<byte>)
    ensures RustRun([], [a, b]).items == RustTurn(a).items + RustTurn(RustTurn(a).rest + b).items
  {
    hide RustTurn;
    var first := RustTurn(a);
    var second := RustTurn(first.rest + b);
    assert [] + a == a && [a, b][1..] == [b] && [b][1..] == [];
    assert RustRun(second.rest, []) == Turn([], second.rest);
    assert second.items + [] == second.items;
    assert RustRun(first.rest, [b]).items == second.items;
  }

  lemma BadMagicTurn(a: seq<byte>)
    requires Scan(Rust, a).stop.AtBadMagic?
    ensures RustTurn(a).rest == []
    ensures Emitted(Rust, RustTurn(a).items)
            == Emitted(Rust, Scan(Rust, a).items) + [OnInvalidMagic(Scan(Rust, a).stop.code)]
  {
    var s := Scan(Rust, a);
    var cleared := Cleared(s.stop.code, s.rest);
    assert RustTurn(a) == Turn(s.items + [cleared], []);
    hide Scan, RustTurn, Emitted;
    EmittedConcat(Rust, s.items, [cleared]);
    EmittedOne(Rust, cleared);
  }

  /** Cutting right after an observed bad magic makes the rest heard separately. */
  lemma {:induction false} CutAfterBadMagic(a: seq<byte>, b: seq<byte>)
    requires Scan(Rust, a).stop.AtBadMagic?
    ensures RustLog([a, b]) == RustLog([a + b]) + RustLog([b])
  {
    ScanResumes(Rust, a, b);
    hide Scan, RustTurn, Emitted;
    BadMagicTurn(a);
    BadMagicTurn(a + b);
    TwoReads(a, b);
    OneRead(b);
    OneRead(a + b);
    assert [] + b == b;
    EmittedConcat(Rust, RustTurn(a).items, RustTurn(b).items);
  }

  lemma NotQuietIsHeard(b: seq<byte>)
    requires !Quiet(Rust, b)
    ensures RustLog([b]) != []
  {
    OneRead(b);
    ScanKinds(b);
    var items := RustTurn(b).items;
    var next := NextItem(Rust, b);
    assert items != [] by {
      if next.Consume? {
        TurnConsumes(b, next.item);
      } else {
        TurnEnds(b);
      }
    }
    assert Emit(Rust, items[0]) != [];
  }

  /** One byte past the start of a header there is no magic. */
  lemma ShiftedMagic(left: seq<byte>)
    requires |left| > HEADER_SIZE && Quiet(Rust, left)
    ensures !Quiet(Rust, left[1..])
  {
    assert left[0..4] == MSIP_MAGIC;
    assert left[0..4][1] == left[1] && MSIP_MAGIC[1] == 0x53;
    assert left[1..][0..4][0] == left[1] && MSIP_MAGIC[0] == 0x4D;
  }

  lemma {:induction false} OtherStreamsDoNot(stream: seq<byte>) returns (chunks: seq<seq<byte>>)
    requires !ResyncCannotShow(stream)
    ensures Join(chunks) == stream && RustLog(chunks) != RustLog([stream])
  {
    hide Scan, Quiet, RustLog;
    var point := DetectionPoint(stream);
    var left := stream[point..];
    var cut := if Quiet(Rust, left) then point + 1 else point;
    var a, b := stream[..cut], stream[cut..];
    assert stream == a + b;
    if cut != point {
      assert a == stream[..point] + [stream[point]];
      ScanResumes(Rust, stream[..point], [stream[point]]);
      assert b == left[1..];
      ShiftedMagic(left);
    }
    CutAfterBadMagic(a, b);
    NotQuietIsHeard(b);
    JoinTwo(a, b);
    chunks := [a, b];
  }

  /**
   * Past the first magic error the log does depend on the reads, for every stream except those
   * ResyncCannotShow describes; for those it never does.
   */
  lemma ResyncExactly(stream: seq<byte>)
    ensures EveryCutSoundsAlike(stream) <==> ResyncCannotShow(stream)
  {
    if ResyncCannotShow(stream) {
      forall chunks | Join(chunks) == stream ensures RustLog(chunks) == RustLog([stream]) {
        SafeStreamsSoundAlike(stream, chunks);
      }
    } else {
      var chunks := OtherStreamsDoNot(stream);
    }
  }

  /** A concrete stream whose log depends on the reads: 24 bytes of noise before a PING. */
  lemma {:induction false} NoiseThenPing(ping: Header, noise: seq<byte>)
    requires ping.magic == MSIP_MAGIC && ping.payloadLen == 0
    requires |noise| == HEADER_SIZE && noise[0] == 0
    ensures RustLog([noise + Encoded(ping)]) == [OnInvalidMagic(Value(noise[0..4]))]
    ensures RustLog([noise, Encoded(ping)]) == RustLog([noise + Encoded(ping)]) + RustLog([Encoded(ping)])
    ensures RustLog([Encoded(ping)]) != []
  {
    NoiseIsBadMagic(noise);
    EncodedIsNotQuiet(ping);
    BadMagicFront(noise, Value(noise[0..4]), Encoded(ping));
    NotQuietIsHeard(Encoded(ping));
  }

  lemma BadMagicFront(noise: seq<byte>, code: nat, b: seq<byte>)
    requires NextItem(Rust, noise) == BadMagic(code)
    ensures RustLog([noise + b]) == [OnInvalidMagic(code)]
    ensures RustLog([noise, b]) == RustLog([noise + b]) + RustLog([b])
  {
    CutAfterBadMagic(noise, b);
    NextIsStable(Rust, noise, b);
    hide NextItem, RustTurn;
    OneRead(noise + b);
    TurnEnds(noise + b);
    EmittedOne(Rust, Cleared(code, noise + b));
  }

  lemma NoiseIsBadMagic(noise: seq<byte>)
    requires |noise| == HEADER_SIZE && noise[0] == 0
    ensures NextItem(Rust, noise) == BadMagic(Value(noise[0..4]))
  {
    assert noise[0..4][0] == 0;
  }

  lemma EncodedIsNotQuiet(ping: Header)
    requires ping.magic == MSIP_MAGIC && ping.payloadLen == 0
    ensures !Quiet(Rust, Encoded(ping))
  {
    FieldsOfEncoded(ping);
    Widths();
    ValueOfBigEndian(4, 0);
  }
}
