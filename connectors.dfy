/** The Connector object: one source, an ordered list of sinks, and the
    operations that attach and detach sinks, open and close everything, and
    move data from the source to every sink.  Each method is proved against
    the functions of SinkList, Session and Streaming. */
module Connectors {
  import opened Endpoints
  import opened SinkList
  import opened Session
  import opened Streaming

  class Connector {
    var source: SourceRef
    var sinks: seq<SinkRef>

    /** The connector's sinks together with the state of the external objects. */
    function State(dev: Devices): Rig
      reads this, dev
    {
      Rig(sinks, dev.openSources, dev.openSinks, dev.calls)
    }

    /** `Connector(source)`, through `init`: the source, and no sinks. */
    constructor (source: SourceRef)
      ensures this.source == source && sinks == []
    {
      this.source := source;
      sinks := [];
    }

    /** The copy constructor: the same source, and every sink of the other
        connector attached in its order. */
    constructor Copy(other: Connector)
      ensures source == other.source && sinks == other.sinks
    {
      source := other.source;
      sinks := [];
      new;
      var u := 0;
      while u < |other.sinks|
        invariant 0 <= u <= |other.sinks|
        invariant source == other.source && sinks == other.sinks[..u]
      {
        Attach(other.sinks[u]);
        u := u + 1;
      }
      assert other.sinks[..u] == other.sinks;
    }

    /** `strip`: releases every sink reference. */
    method Strip()
      modifies this
      ensures sinks == [] && source == old(source)
    {
      sinks := [];
    }

    /** `operator=`: unless the other connector is this one, strip, take its
        source and attach its sinks in order.  Either way the result has the
        other connector's source and sinks. */
    method Assign(other: Connector)
      modifies this
      ensures source == old(other.source) && sinks == old(other.sinks)
      ensures other.source == old(other.source) && other.sinks == old(other.sinks)
    {
      if this != other {
        Strip();
        source := other.source;
        sinks := [];
        var u := 0;
        while u < |other.sinks|
          invariant 0 <= u <= |other.sinks|
          invariant source == other.source && sinks == other.sinks[..u]
          invariant other.source == old(other.source) && other.sinks == old(other.sinks)
        {
          Attach(other.sinks[u]);
          u := u + 1;
        }
        assert other.sinks[..u] == other.sinks;
      }
    }

    /** `attach`: copies the slots into a list one longer and puts the new
        sink in the last slot. */
    method Attach(s: SinkRef)
      modifies this
      ensures sinks == old(sinks) + [s] && source == old(source)
    {
      var cur := sinks;
      if |cur| == 0 {
        sinks := [s];
      } else {
        var a := new SinkRef[|cur| + 1];
        var u := 0;
        while u < |cur|
          invariant 0 <= u <= |cur|
          invariant forall j :: 0 <= j < u ==> a[j] == cur[j]
          modifies a
        {
          a[u] := cur[u];
          u := u + 1;
        }
        a[|cur|] := s;
        sinks := a[..];
      }
    }

    /** `detach`: finds the first slot holding `s` and copies the other slots,
        in order, into a list one shorter.  It answers false, changing
        nothing, when no slot holds `s`; this holds for a single sink too,
        where the code as written empties the list regardless (see
        SinkList.DetachedAsWritten). */
    method Detach(s: SinkRef) returns (found: bool)
      modifies this
      ensures (found, sinks) == Detached(old(sinks), s)
      ensures source == old(source)
    {
      var cur := sinks;
      var n := |cur|;
      if n == 0 {
        return false;
      }
      var ix := n;
      var u := 0;
      while u < n
        invariant 0 <= u <= n
        invariant forall j :: 0 <= j < u ==> cur[j] != s
      {
        if cur[u] == s {
          ix := u;
          break;
        }
        u := u + 1;
      }
      if ix == n {
        return false;
      }
      assert IndexOf(cur, s) == ix;
      var a := new SinkRef[n - 1];
      var v := 0;
      u := 0;
      while u < n
        invariant 0 <= u <= n
        invariant v == if u <= ix then u else u - 1
        invariant forall j :: 0 <= j < v && j < ix ==> a[j] == cur[j]
        invariant forall j :: ix <= j < v ==> a[j] == cur[j + 1]
        modifies a
      {
        if u != ix {
          a[v] := cur[u];
          v := v + 1;
        }
        u := u + 1;
      }
      assert a[..] == Without(cur, ix);
      sinks := a[..];
      found := true;
    }

    /** `open`: opens the source unless it is open, then every sink that is
        closed, stopping at the first that refuses; after a refusal it closes
        the sinks of the slots before it and the source, and answers false. */
    method Open(dev: Devices, sourceOpens: bool, opens: SinkRef -> bool) returns (ok: bool)
      modifies dev
      ensures (ok, State(dev)) == Session.Open(old(State(dev)), source, sourceOpens, opens)
    {
      ghost var r0 := State(dev);
      if source !in dev.openSources {
        var accepted := dev.OpenSource(source, sourceOpens);
        if !accepted {
          return false;
        }
      }
      assert State(dev) == SourceOpened(r0, source);
      var u := OpenSinks(dev, opens);
      if u < |sinks| {
        CloseFirst(dev, u);
        dev.CloseSource(source);
        return false;
      }
      return true;
    }

    /** The sink-opening loop of `open`: a sink that is open is left alone, a
        closed one is opened, and the loop stops at the first refusal. */
    method OpenSinks(dev: Devices, opens: SinkRef -> bool) returns (u: nat)
      modifies dev
      ensures (u, State(dev)) == OpenWalk(old(State(dev)), opens, 0)
    {
      ghost var r1 := State(dev);
      u := 0;
      while u < |sinks|
        invariant 0 <= u <= |sinks|
        invariant State(dev).sinks == r1.sinks && dev.openSources == r1.openSources
        invariant OpenWalk(r1, opens, 0) == OpenWalk(State(dev), opens, u)
      {
        ghost var before := State(dev);
        var s := sinks[u];
        if s !in dev.openSinks {
          var accepted := dev.OpenSink(s, opens(s));
          if !accepted {
            assert OpenWalk(before, opens, u) == (u, State(dev));
            return;
          }
        }
        assert OpenWalk(before, opens, u) == OpenWalk(State(dev), opens, u + 1);
        u := u + 1;
      }
    }

    /** Closes the sinks of slots 0..u-1 in order: the rollback loop of
        `open`, and with u = |sinks| the sink loop of `close`. */
    method CloseFirst(dev: Devices, u: nat)
      requires u <= |sinks|
      modifies dev
      ensures State(dev) == CloseSinks(old(State(dev)), sinks[..u])
    {
      ghost var r := State(dev);
      var v := 0;
      while v < u
        invariant 0 <= v <= u
        invariant State(dev) == CloseSinks(r, sinks[..v])
      {
        assert sinks[..v + 1] == sinks[..v] + [sinks[v]];
        assert Closes(sinks[..v + 1]) == Closes(sinks[..v]) + [SinkClose(sinks[v])];
        dev.CloseSink(sinks[v]);
        v := v + 1;
      }
    }

    /** `close`: closes the source, then every sink in slot order. */
    method Close(dev: Devices)
      modifies dev
      ensures State(dev) == Session.Close(old(State(dev)), source)
    {
      dev.CloseSource(source);
      CloseFirst(dev, |sinks|);
      assert sinks[..|sinks|] == sinks;
    }

    /** `transfer(bytes, bufSize, sec, usec)`: rounds of canRead, read and
        fan-out until `bytes` bytes have been moved (no limit when it is 0),
        the source has nothing to read, reaches end of file or raises, or the
        last sink is detached.  The timeouts are left out; what the source and
        the sinks do comes from `script` and `replies`. */
    method Transfer(dev: Devices, bytes: nat, bufSize: nat, script: seq<SourceStep>,
                    replies: nat -> SinkReply) returns (o: Outcome)
      modifies this, dev
      ensures (o, State(dev)) == Streaming.Transfer(bytes, bufSize, old(State(dev)), source, script, replies)
      ensures source == old(source)
    {
      if |sinks| == 0 {
        return Moved(0, Idle);
      }
      if bufSize == 0 {
        return Moved(0, Idle);
      }
      ghost var r0 := State(dev);
      var b: nat, i: nat, k: nat := 0, 0, 0;
      while bytes == 0 || b < bytes
        invariant source == old(source) && i <= |script|
        invariant Rounds(bytes, bufSize, 0, 0, r0, source, script, replies, 0)
               == Rounds(bytes, bufSize, b, i, State(dev), source, script, replies, k)
        decreases |script| - i
      {
        var more;
        more, o, b, i, k := Round(dev, bytes, bufSize, script, replies, b, i, k);
        if !more {
          return;
        }
      }
      return Moved(b, Budget);
    }

    /** One round of the transfer loop, entered while the budget is not met:
        canRead, then read, then the fan-out of a nonempty chunk, whose size is
        counted once every sink has had its turn.  Answers whether the loop
        goes on, and the outcome of `transfer` when it does not. */
    method Round(dev: Devices, bytes: nat, bufSize: nat, script: seq<SourceStep>,
                 replies: nat -> SinkReply, b: nat, i: nat, k: nat)
      returns (more: bool, o: Outcome, b': nat, i': nat, k': nat)
      requires bytes == 0 || b < bytes
      modifies this, dev
      ensures source == old(source)
      ensures more ==> i' == i + 1 && i < |script|
      ensures more ==> (Rounds(bytes, bufSize, b, i, old(State(dev)), source, script, replies, k)
                        == Rounds(bytes, bufSize, b', i', State(dev), source, script, replies, k'))
      ensures !more ==> (Rounds(bytes, bufSize, b, i, old(State(dev)), source, script, replies, k)
                         == (o, State(dev)))
    {
      ghost var before := State(dev);
      more, o, b', i', k' := false, Raised, b, i, k;
      var step := StepAt(script, i);
      dev.Record(SourcePoll(source));
      if step.NotReadable? {
        o := Moved(b, CannotRead);
        return;
      } else if step.CanReadThrows? {
        return;
      }
      dev.Record(SourceRead(source, bufSize));
      if step.ReadThrows? {
        return;
      }
      var d := step.bytes;
      if |d| == 0 {
        o := Moved(b, EndOfFile);
        return;
      }
      assert before.calls + [SourcePoll(source)] + [SourceRead(source, bufSize)]
          == before.calls + [SourcePoll(source), SourceRead(source, bufSize)];
      ghost var read := State(dev);
      ghost var f := FanOut(read.sinks, read.openSinks, 0, d, replies, k);
      more, o, b', i', k' := Deliver(dev, bytes, bufSize, script, replies, b, i, k, before, read, f);
    }

    /** The rest of a round whose read returned a nonempty chunk: the fan-out,
        then the count, unless the fan-out raised or detached every sink. */
    method Deliver(dev: Devices, bytes: nat, bufSize: nat, script: seq<SourceStep>,
                   replies: nat -> SinkReply, b: nat, i: nat, k: nat, ghost before: Rig, ghost read: Rig, ghost f: Fan)
      returns (more: bool, o: Outcome, b': nat, i': nat, k': nat)
      requires !(bytes != 0 && b >= bytes) && i < |script| && script[i].Data? && |script[i].bytes| > 0
      requires read == before.(calls := before.calls + [SourcePoll(source), SourceRead(source, bufSize)])
      requires read == State(dev) && f == FanOut(read.sinks, read.openSinks, 0, script[i].bytes, replies, k)
      modifies this, dev
      ensures source == old(source)
      ensures more ==> i' == i + 1 && i < |script|
      ensures more ==> (Rounds(bytes, bufSize, b, i, before, source, script, replies, k)
                        == Rounds(bytes, bufSize, b', i', State(dev), source, script, replies, k'))
      ensures !more ==> (Rounds(bytes, bufSize, b, i, before, source, script, replies, k)
                         == (o, State(dev)))
    {
      var d := script[i].bytes;
      RoundsNext(bytes, bufSize, b, i, before, source, script, replies, k, read, f);
      var status, next, log := FanOutChunk(dev, d, replies, k);
      assert State(dev) == After(read, f);
      more, o, b', i', k' := false, Raised, b, i, k;
      if status == Thrown {
        return;
      } else if status == AllDetached {
        o := Moved(b, NoSinks);
        return;
      }
      more, b', i', k' := true, b + |d|, i + 1, next;
    }

    /** The fan-out loop of `transfer` for one chunk: each sink in slot order
        is polled and, when writable, written; a sink whose write throws is
        closed and detached and the next sink moves into its slot, which is
        visited next; an exception from canWrite ends it.  `replies(k)` on is
        what the sinks do; answers how it ended and the next reply index. */
    method FanOutChunk(dev: Devices, d: seq<byte>, replies: nat -> SinkReply, k0: nat)
      returns (status: FanStatus, k: nat, ghost log: seq<Call>)
      modifies this, dev
      ensures dev.calls == old(dev.calls) + log
      ensures FanOut(old(sinks), old(dev.openSinks), 0, d, replies, k0)
           == Fan(sinks, dev.openSinks, log, k, status)
      ensures source == old(source) && dev.openSources == old(dev.openSources)
    {
      ghost var f0 := FanOut(sinks, dev.openSinks, 0, d, replies, k0);
      ghost var c0 := dev.calls;
      log := [];
      ResumesStart(sinks, dev.openSinks, d, replies, k0);
      k := k0;
      status := Delivered;
      var u: nat := 0;
      while status == Delivered && u < |sinks|
        invariant status == Delivered ==> u <= |sinks|
        invariant source == old(source) && dev.openSources == old(dev.openSources)
        invariant dev.calls == c0 + log
        invariant status == Delivered ==> Resumes(f0, log, sinks, dev.openSinks, u, d, replies, k)
        invariant status != Delivered ==> f0 == Fan(sinks, dev.openSinks, log, k, status)
        decreases if status == Delivered then |sinks| - u + 1 else 0
      {
        var cursor;
        cursor, status, log := Turn(dev, u, d, replies, k, f0, c0, log);
        k := k + 1;
        if status == Delivered {
          u := cursor;
        }
      }
      if status == Delivered {
        ResumesDone(f0, log, sinks, dev.openSinks, u, d, replies, k);
      }
    }

    /** One pass of the fan-out loop: the turn of the sink at slot u, after
        which the fan-out goes on from the cursor, or is over. */
    method Turn(dev: Devices, u: nat, d: seq<byte>, replies: nat -> SinkReply, k: nat,
                ghost f0: Fan, ghost c0: seq<Call>, ghost log: seq<Call>)
      returns (cursor: nat, status: FanStatus, ghost log': seq<Call>)
      requires u < |sinks| && dev.calls == c0 + log
      requires Resumes(f0, log, sinks, dev.openSinks, u, d, replies, k)
      modifies this, dev
      ensures dev.calls == c0 + log'
      ensures status == Delivered ==> cursor <= |sinks| && |sinks| - cursor < old(|sinks|) - u
      ensures status == Delivered ==> Resumes(f0, log', sinks, dev.openSinks, cursor, d, replies, k + 1)
      ensures status != Delivered ==> f0 == Fan(sinks, dev.openSinks, log', k + 1, status)
      ensures source == old(source) && dev.openSources == old(dev.openSources)
    {
      ghost var turn := VisitLog(sinks[u], d, replies(k));
      ResumesTurn(f0, log, sinks, dev.openSinks, u, d, replies, k);
      assert (c0 + log) + turn == c0 + (log + turn);
      log' := log + turn;
      cursor, status := VisitSink(dev, u, d, replies(k));
    }

    /** One sink's turn in the fan-out loop: canWrite, then write when it is
        writable; a sink whose write throws is closed and detached. */
    method VisitSink(dev: Devices, u: nat, d: seq<byte>, reply: SinkReply)
      returns (cursor: nat, status: FanStatus)
      requires u < |sinks|
      modifies this, dev
      ensures var v := Visit(old(sinks), old(dev.openSinks), u, reply);
        && sinks == v.sinks && dev.openSinks == v.openSinks
        && cursor == v.cursor && status == v.status
      ensures dev.calls == old(dev.calls) + VisitLog(old(sinks)[u], d, reply)
      ensures source == old(source) && dev.openSources == old(dev.openSources)
    {
      var s := sinks[u];
      dev.Record(SinkPoll(s));
      match reply
      case NotWritable =>
        cursor, status := u + 1, Delivered;
      case CanWriteThrows =>
        cursor, status := u, Thrown;
      case WriteReturns(_) =>
        dev.Record(SinkWrite(s, d));
        cursor, status := u + 1, Delivered;
      case WriteThrows =>
        dev.Record(SinkWrite(s, d));
        dev.CloseSink(s);
        var _ := Detach(s);
        cursor := u;
        status := if |sinks| == 0 then AllDetached else Delivered;
    }
  }
}
