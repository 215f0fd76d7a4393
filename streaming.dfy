/** What `transfer` does: rounds of poll, read and fan-out, as functions of a
    snapshot of the connector, the source's script and the sinks' replies. */
module Streaming {
  import opened Endpoints
  import opened SinkList
  import opened Session

  /** Why a transfer ended without an exception. */
  datatype Stop =
    | Idle          // no sinks or a zero chunk size: nothing was attempted
    | Budget        // the requested number of bytes has been moved
    | EndOfFile     // the source delivered no bytes
    | CannotRead    // the source did not become readable in time
    | NoSinks       // the last sink was detached

  /** The outcome of a transfer: a count of bytes, or an exception propagated
      from the source or from a sink's canWrite. */
  datatype Outcome = Moved(count: nat, why: Stop) | Raised

  datatype FanStatus = Delivered | AllDetached | Thrown

  /** The sink list and the open sinks after a fan-out, the calls it made on
      the sinks, the index of the next sink reply to consume, and how it
      ended. */
  datatype Fan = Fan(sinks: seq<SinkRef>, openSinks: set<SinkRef>, log: seq<Call>,
                     next: nat, status: FanStatus)

  /** The sink list and the open sinks after one sink's turn, the slot the
      fan-out goes on from, and whether it goes on (Delivered) or ends. */
  datatype Visited = Visited(sinks: seq<SinkRef>, openSinks: set<SinkRef>, cursor: nat,
                             status: FanStatus)

  /** The calls made on sink s in its turn, given what it does. */
  function VisitLog(s: SinkRef, data: seq<byte>, reply: SinkReply): seq<Call>
  {
    match reply
    case NotWritable => [SinkPoll(s)]
    case CanWriteThrows => [SinkPoll(s)]
    case WriteReturns(_) => [SinkPoll(s), SinkWrite(s, data)]
    case WriteThrows => [SinkPoll(s), SinkWrite(s, data), SinkClose(s)]
  }

  /** The turn of the sink at slot u.  A sink that is not writable is passed
      over and stays attached; the count `write` returns is ignored; a sink
      whose `write` throws is closed and detached, and the cursor stays at u,
      where the next sink now sits; when that leaves no sinks, the fan-out
      ends.  An exception from `canWrite` ends the fan-out. */
  function Visit(sinks: seq<SinkRef>, openSinks: set<SinkRef>, u: nat, reply: SinkReply): (v: Visited)
    requires u < |sinks|
    ensures v.status == Delivered ==> v.cursor <= |v.sinks| && |v.sinks| - v.cursor == |sinks| - u - 1
  {
    match reply
    case NotWritable => Visited(sinks, openSinks, u + 1, Delivered)
    case CanWriteThrows => Visited(sinks, openSinks, u, Thrown)
    case WriteReturns(_) => Visited(sinks, openSinks, u + 1, Delivered)
    case WriteThrows =>
      var rest := Detached(sinks, sinks[u]).1;
      Visited(rest, openSinks - {sinks[u]}, u, if |rest| == 0 then AllDetached else Delivered)
  }

  /** Offers one chunk to the sinks from slot u on, one turn per sink;
      `replies(k)` is what the k-th visited sink does. */
  function FanOut(sinks: seq<SinkRef>, openSinks: set<SinkRef>, u: nat, data: seq<byte>,
                  replies: nat -> SinkReply, k: nat): (f: Fan)
    decreases |sinks| - u
  {
    if u >= |sinks| then Fan(sinks, openSinks, [], k, Delivered)
    else
      var log := VisitLog(sinks[u], data, replies(k));
      var v := Visit(sinks, openSinks, u, replies(k));
      if v.status == Delivered then
        var f := FanOut(v.sinks, v.openSinks, v.cursor, data, replies, k + 1);
        f.(log := log + f.log)
      else Fan(v.sinks, v.openSinks, log, k + 1, v.status)
  }

  /** One turn of the fan-out, unfolded: the calls of the turn come first, then
      the fan-out from where the turn leaves the cursor, unless the turn ends it. */
  lemma FanOutStep(sinks: seq<SinkRef>, openSinks: set<SinkRef>, u: nat, data: seq<byte>,
                   replies: nat -> SinkReply, k: nat)
    requires u < |sinks|
    ensures var v := Visit(sinks, openSinks, u, replies(k));
      var log := VisitLog(sinks[u], data, replies(k));
      var f := FanOut(sinks, openSinks, u, data, replies, k);
      var g := FanOut(v.sinks, v.openSinks, v.cursor, data, replies, k + 1);
      && (v.status != Delivered ==> f == Fan(v.sinks, v.openSinks, log, k + 1, v.status))
      && (v.status == Delivered ==> f == g.(log := log + g.log))
  {
  }

  /** A fan-out f0 that has made the calls `acc` so far and goes on from slot u
      of `sinks`, with reply index k: what the running loop of `transfer`
      keeps true. */
  predicate Resumes(f0: Fan, acc: seq<Call>, sinks: seq<SinkRef>, openSinks: set<SinkRef>, u: nat,
                    data: seq<byte>, replies: nat -> SinkReply, k: nat)
  {
    var f := FanOut(sinks, openSinks, u, data, replies, k);
    f0 == f.(log := acc + f.log)
  }

  /** The fan-out from slot 0 resumes from its start with no calls made. */
  lemma ResumesStart(sinks: seq<SinkRef>, openSinks: set<SinkRef>, data: seq<byte>,
                     replies: nat -> SinkReply, k: nat)
    ensures Resumes(FanOut(sinks, openSinks, 0, data, replies, k), [], sinks, openSinks, 0, data, replies, k)
  {
    var f := FanOut(sinks, openSinks, 0, data, replies, k);
    assert [] + f.log == f.log;
  }

  /** One more turn keeps the fan-out resumable, or ends it. */
  lemma ResumesTurn(f0: Fan, acc: seq<Call>, sinks: seq<SinkRef>, openSinks: set<SinkRef>, u: nat,
                    data: seq<byte>, replies: nat -> SinkReply, k: nat)
    requires u < |sinks| && Resumes(f0, acc, sinks, openSinks, u, data, replies, k)
    ensures var v := Visit(sinks, openSinks, u, replies(k));
      var acc' := acc + VisitLog(sinks[u], data, replies(k));
      && (v.status == Delivered ==> Resumes(f0, acc', v.sinks, v.openSinks, v.cursor, data, replies, k + 1))
      && (v.status != Delivered ==> f0 == Fan(v.sinks, v.openSinks, acc', k + 1, v.status))
  {
    var v := Visit(sinks, openSinks, u, replies(k));
    var log := VisitLog(sinks[u], data, replies(k));
    FanOutStep(sinks, openSinks, u, data, replies, k);
    if v.status == Delivered {
      var g := FanOut(v.sinks, v.openSinks, v.cursor, data, replies, k + 1);
      assert acc + (log + g.log) == (acc + log) + g.log;
    }
  }

  /** Past the last slot, the fan-out is over and delivered. */
  lemma ResumesDone(f0: Fan, acc: seq<Call>, sinks: seq<SinkRef>, openSinks: set<SinkRef>, u: nat,
                    data: seq<byte>, replies: nat -> SinkReply, k: nat)
    requires u >= |sinks| && Resumes(f0, acc, sinks, openSinks, u, data, replies, k)
    ensures f0 == Fan(sinks, openSinks, acc, k, Delivered)
  {
    assert acc + [] == acc;
  }

  /** The snapshot once a fan-out is over. */
  function After(r: Rig, f: Fan): Rig
  {
    r.(sinks := f.sinks, openSinks := f.openSinks, calls := r.calls + f.log)
  }

  /** The transfer loop from round i on, with b bytes counted so far and k
      sink replies consumed.  A round polls the source, reads at most bufSize
      bytes and offers them to the sinks; the bytes are counted once the
      fan-out is over.  `bytes == 0` means no budget. */
  function Rounds(bytes: nat, bufSize: nat, b: nat, i: nat, r: Rig, src: SourceRef,
                  script: seq<SourceStep>, replies: nat -> SinkReply, k: nat): (res: (Outcome, Rig))
    decreases |script| - i
    ensures res.0.Moved? ==> res.0.count >= b
  {
    if bytes != 0 && b >= bytes then (Moved(b, Budget), r)
    else
      var polled := r.(calls := r.calls + [SourcePoll(src)]);
      var read := polled.(calls := polled.calls + [SourceRead(src, bufSize)]);
      match StepAt(script, i)
      case NotReadable => (Moved(b, CannotRead), polled)
      case CanReadThrows => (Raised, polled)
      case ReadThrows => (Raised, read)
      case Data(d) =>
        if |d| == 0 then (Moved(b, EndOfFile), read)
        else
          var f := FanOut(read.sinks, read.openSinks, 0, d, replies, k);
          match f.status
          case Thrown => (Raised, After(read, f))
          case AllDetached => (Moved(b, NoSinks), After(read, f))
          case Delivered => Rounds(bytes, bufSize, b + |d|, i + 1, After(read, f), src, script, replies, f.next)
  }

  /** `transfer(bytes, bufSize, sec, usec)`: nothing at all when there are no
      sinks or the chunk size is zero, otherwise the rounds from the start. */
  function Transfer(bytes: nat, bufSize: nat, r: Rig, src: SourceRef,
                    script: seq<SourceStep>, replies: nat -> SinkReply): (res: (Outcome, Rig))
    ensures (res.0.Raised? || res.0.why != Idle) ==> |r.sinks| > 0 && bufSize > 0
  {
    if |r.sinks| == 0 || bufSize == 0 then (Moved(0, Idle), r)
    else Rounds(bytes, bufSize, 0, 0, r, src, script, replies, 0)
  }

  // ---------------------------------------------------------------------------
  // Reading the record of calls

  /** The sinks polled by canWrite, in the order of the calls. */
  function Polled(cs: seq<Call>): seq<SinkRef>
  {
    if cs == [] then [] else (if cs[0].SinkPoll? then [cs[0].sink] else []) + Polled(cs[1..])
  }

  /** The sinks closed, in the order of the calls. */
  function Dropped(cs: seq<Call>): seq<SinkRef>
  {
    if cs == [] then [] else (if cs[0].SinkClose? then [cs[0].sink] else []) + Dropped(cs[1..])
  }

  lemma PolledAppend(a: seq<Call>, b: seq<Call>)
    ensures Polled(a + b) == Polled(a) + Polled(b)
    ensures Dropped(a + b) == Dropped(a) + Dropped(b)
  {
    PolledCat(a, b);
    DroppedCat(a, b);
  }

  lemma {:induction false} PolledCat(a: seq<Call>, b: seq<Call>)
    ensures Polled(a + b) == Polled(a) + Polled(b)
  {
    if a == [] {
      assert a + b == b;
    } else {
      assert (a + b)[0] == a[0];
      assert (a + b)[1..] == a[1..] + b;
      PolledCat(a[1..], b);
      var h := if a[0].SinkPoll? then [a[0].sink] else [];
      assert h + (Polled(a[1..]) + Polled(b)) == (h + Polled(a[1..])) + Polled(b);
    }
  }

  lemma {:induction false} DroppedCat(a: seq<Call>, b: seq<Call>)
    ensures Dropped(a + b) == Dropped(a) + Dropped(b)
  {
    if a == [] {
      assert a + b == b;
    } else {
      assert (a + b)[0] == a[0];
      assert (a + b)[1..] == a[1..] + b;
      DroppedCat(a[1..], b);
      var h := if a[0].SinkClose? then [a[0].sink] else [];
      assert h + (Dropped(a[1..]) + Dropped(b)) == (h + Dropped(a[1..])) + Dropped(b);
    }
  }

  lemma OneCall(c: Call)
    ensures Polled([c]) == if c.SinkPoll? then [c.sink] else []
    ensures Dropped([c]) == if c.SinkClose? then [c.sink] else []
  {
    assert [c][1..] == [];
  }

  lemma MembersAppend(a: seq<SinkRef>, b: seq<SinkRef>)
    ensures Members(a + b) == Members(a) + Members(b)
  {
  }

  /** The bytes of a run of source steps. */
  function Total(steps: seq<SourceStep>): nat
  {
    if steps == [] then 0
    else (if steps[0].Data? then |steps[0].bytes| else 0) + Total(steps[1..])
  }

  /** Every step delivered a non-empty chunk. */
  predicate Chunks(steps: seq<SourceStep>)
  {
    forall j :: 0 <= j < |steps| ==> steps[j].Data? && |steps[j].bytes| > 0
  }

  /** Round c is where a transfer that ended for reason `why` stopped. */
  predicate StopsAt(script: seq<SourceStep>, c: nat, why: Stop)
  {
    match why
    case EndOfFile => StepAt(script, c) == Data([])
    case CannotRead => StepAt(script, c) == NotReadable
    case NoSinks => StepAt(script, c).Data? && |StepAt(script, c).bytes| > 0
    case _ => true
  }

  /** A run of chunks grows by one at its front. */
  lemma ChunksCons(script: seq<SourceStep>, i: nat, c: nat)
    requires i < c <= |script|
    requires script[i].Data? && |script[i].bytes| > 0 && Chunks(script[i + 1..c])
    ensures Chunks(script[i..c]) && Total(script[i..c]) == |script[i].bytes| + Total(script[i + 1..c])
  {
    assert script[i..c][1..] == script[i + 1..c];
    assert forall j :: 1 <= j < c - i ==> script[i..c][j] == script[i + 1..c][j - 1];
  }

  // ---------------------------------------------------------------------------
  // One turn

  /** Whatever a turn writes is the chunk, to its own sink. */
  lemma VisitLogWrites(s: SinkRef, data: seq<byte>, reply: SinkReply)
    ensures forall c :: c in VisitLog(s, data, reply) && c.SinkWrite? ==> c == SinkWrite(s, data)
  {
  }

  /** Each turn polls exactly its own sink, and closes it exactly when its
      write throws. */
  lemma VisitLogReads(s: SinkRef, data: seq<byte>, reply: SinkReply)
    ensures Polled(VisitLog(s, data, reply)) == [s]
    ensures Dropped(VisitLog(s, data, reply)) == if reply.WriteThrows? then [s] else []
  {
    OneCall(SinkPoll(s));
    OneCall(SinkWrite(s, data));
    OneCall(SinkClose(s));
    match reply
    case NotWritable =>
    case CanWriteThrows =>
    case WriteReturns(_) =>
      PolledAppend([SinkPoll(s)], [SinkWrite(s, data)]);
    case WriteThrows =>
      PolledAppend([SinkPoll(s)], [SinkWrite(s, data)]);
      PolledAppend([SinkPoll(s), SinkWrite(s, data)], [SinkClose(s)]);
  }

  /** After one turn the sinks of the slots after u come next; the list and
      the open sinks change only when a write throws, and the list loses its
      last sink only when that sink was the only one. */
  lemma VisitSlots(sinks: seq<SinkRef>, openSinks: set<SinkRef>, u: nat, reply: SinkReply)
    requires u < |sinks|
    ensures Visit(sinks, openSinks, u, reply).status == Thrown <==> reply.CanWriteThrows?
    ensures var v := Visit(sinks, openSinks, u, reply);
      v.status == Delivered ==> v.sinks[v.cursor..] == sinks[u + 1..] && |v.sinks| > 0
    ensures var v := Visit(sinks, openSinks, u, reply);
      v.status == AllDetached ==> sinks == [sinks[u]] && v.sinks == []
    ensures var v := Visit(sinks, openSinks, u, reply);
      !reply.WriteThrows? ==> v.sinks == sinks && v.openSinks == openSinks
  {
    if reply.WriteThrows? {
      DetachAtCursor(sinks, u);
      var v := Visit(sinks, openSinks, u, reply);
      if v.status == AllDetached {
        assert |sinks| == 1;
      }
    }
  }

  /** A sink whose write throws leaves the list, one slot of it, and the open
      set. */
  lemma VisitDetaches(sinks: seq<SinkRef>, openSinks: set<SinkRef>, u: nat, data: seq<byte>, reply: SinkReply)
    requires u < |sinks|
    ensures multiset(Visit(sinks, openSinks, u, reply).sinks) + multiset(Dropped(VisitLog(sinks[u], data, reply)))
            == multiset(sinks)
    ensures Visit(sinks, openSinks, u, reply).openSinks == openSinks - Members(Dropped(VisitLog(sinks[u], data, reply)))
  {
    VisitLogReads(sinks[u], data, reply);
    if reply.WriteThrows? {
      DetachClosed(sinks, openSinks, u, Visit(sinks, openSinks, u, reply));
    } else {
      assert Members([]) == {};
    }
  }

  /** A turn whose write throws detaches and closes just its own sink. */
  lemma DetachClosed(sinks: seq<SinkRef>, openSinks: set<SinkRef>, u: nat, v: Visited)
    requires u < |sinks| && v == Visit(sinks, openSinks, u, WriteThrows)
    ensures multiset(v.sinks) + multiset([sinks[u]]) == multiset(sinks)
    ensures v.openSinks == openSinks - Members([sinks[u]])
  {
    DetachOneCopy(sinks, sinks[u]);
    assert Members([sinks[u]]) == {sinks[u]};
  }

  // ---------------------------------------------------------------------------
  // The fan-out

  /** A fan-out that runs to its end polls, in order, exactly the sinks of
      slots u.. as they were when it began: detaching a failed sink skips
      none and revisits none. */
  lemma {:induction false} FanOutVisitsEach(sinks: seq<SinkRef>, openSinks: set<SinkRef>, u: nat,
                                           data: seq<byte>, replies: nat -> SinkReply, k: nat)
    requires u <= |sinks|
    decreases |sinks| - u
    ensures var f := FanOut(sinks, openSinks, u, data, replies, k);
      f.status != Thrown ==> Polled(f.log) == sinks[u..]
  {
    if u < |sinks| {
      var log := VisitLog(sinks[u], data, replies(k));
      var v := Visit(sinks, openSinks, u, replies(k));
      VisitLogReads(sinks[u], data, replies(k));
      FanOutStep(sinks, openSinks, u, data, replies, k);
      if v.status == Delivered {
        var g := FanOut(v.sinks, v.openSinks, v.cursor, data, replies, k + 1);
        FanOutVisitsEach(v.sinks, v.openSinks, v.cursor, data, replies, k + 1);
        VisitSlots(sinks, openSinks, u, replies(k));
        if g.status != Thrown {
          PolledAllThen(sinks, u, log, g.log);
        }
      } else if v.status == AllDetached {
        VisitSlots(sinks, openSinks, u, replies(k));
        assert sinks[u..] == [sinks[u]];
      }
    }
  }

  /** The turn of slot u, then a fan-out that polled exactly the later slots,
      polled exactly slots u.. */
  lemma PolledAllThen(sinks: seq<SinkRef>, u: nat, log: seq<Call>, rest: seq<Call>)
    requires u < |sinks| && Polled(log) == [sinks[u]]
    requires Polled(rest) == sinks[u + 1..]
    ensures Polled(log + rest) == sinks[u..]
  {
    PolledThen(sinks[u], log, rest);
    assert sinks[u..] == [sinks[u]] + sinks[u + 1..];
  }

  /** An exception from canWrite cuts the fan-out short after the sink that
      raised it: what it polled is a non-empty prefix of slots u.. */
  lemma {:induction false} FanOutThrownPollsPrefix(sinks: seq<SinkRef>, openSinks: set<SinkRef>, u: nat,
                                                  data: seq<byte>, replies: nat -> SinkReply, k: nat)
    requires u <= |sinks|
    decreases |sinks| - u
    ensures var f := FanOut(sinks, openSinks, u, data, replies, k);
      f.status == Thrown ==> 0 < |Polled(f.log)| && Polled(f.log) <= sinks[u..]
  {
    if u < |sinks| {
      var log := VisitLog(sinks[u], data, replies(k));
      var v := Visit(sinks, openSinks, u, replies(k));
      VisitLogReads(sinks[u], data, replies(k));
      FanOutStep(sinks, openSinks, u, data, replies, k);
      if v.status == Delivered {
        var g := FanOut(v.sinks, v.openSinks, v.cursor, data, replies, k + 1);
        FanOutThrownPollsPrefix(v.sinks, v.openSinks, v.cursor, data, replies, k + 1);
        VisitSlots(sinks, openSinks, u, replies(k));
        if g.status == Thrown {
          PolledPrefixThen(sinks, u, log, g.log);
        }
      } else if v.status == Thrown {
        assert [sinks[u]] == sinks[u..][..1];
      }
    }
  }

  /** The turn of slot u, then a fan-out that polled a non-empty prefix of the
      later slots, polled a non-empty prefix of slots u.. */
  lemma PolledPrefixThen(sinks: seq<SinkRef>, u: nat, log: seq<Call>, rest: seq<Call>)
    requires u < |sinks| && Polled(log) == [sinks[u]]
    requires 0 < |Polled(rest)| && Polled(rest) <= sinks[u + 1..]
    ensures 0 < |Polled(log + rest)| && Polled(log + rest) <= sinks[u..]
  {
    PolledThen(sinks[u], log, rest);
    PrefixCons(sinks[u], Polled(rest), sinks[u + 1..]);
    assert sinks[u..] == [sinks[u]] + sinks[u + 1..];
  }

  /** One delivered turn of sink s followed by the rest of the fan-out. */
  lemma PolledThen(s: SinkRef, log: seq<Call>, rest: seq<Call>)
    requires Polled(log) == [s]
    ensures Polled(log + rest) == [s] + Polled(rest)
  {
    PolledAppend(log, rest);
  }

  lemma PrefixCons(s: SinkRef, p: seq<SinkRef>, q: seq<SinkRef>)
    requires p <= q
    ensures [s] + p <= [s] + q
  {
    assert ([s] + q)[..1 + |p|] == [s] + q[..|p|];
  }

  /** The sinks a fan-out detaches are exactly those it closes, one slot for
      each, and they leave the open set. */
  lemma {:induction false} FanOutDetaches(sinks: seq<SinkRef>, openSinks: set<SinkRef>, u: nat,
                                         data: seq<byte>, replies: nat -> SinkReply, k: nat)
    requires u <= |sinks|
    decreases |sinks| - u
    ensures var f := FanOut(sinks, openSinks, u, data, replies, k);
      multiset(f.sinks) + multiset(Dropped(f.log)) == multiset(sinks)
    ensures var f := FanOut(sinks, openSinks, u, data, replies, k);
      f.openSinks == openSinks - Members(Dropped(f.log))
  {
    if u < |sinks| {
      var v := Visit(sinks, openSinks, u, replies(k));
      VisitDetaches(sinks, openSinks, u, data, replies(k));
      FanOutStep(sinks, openSinks, u, data, replies, k);
      if v.status == Delivered {
        FanOutDetaches(v.sinks, v.openSinks, v.cursor, data, replies, k + 1);
        DroppedThen(sinks, openSinks, v.sinks, v.openSinks, VisitLog(sinks[u], data, replies(k)),
                    FanOut(v.sinks, v.openSinks, v.cursor, data, replies, k + 1));
      }
    } else {
      assert Members([]) == {};
    }
  }

  /** A turn that detached what it closed, then a fan-out that did the same,
      detached what the two closed together. */
  lemma DroppedThen(sinks: seq<SinkRef>, openSinks: set<SinkRef>, rest: seq<SinkRef>, restOpen: set<SinkRef>,
                    log: seq<Call>, g: Fan)
    requires multiset(rest) + multiset(Dropped(log)) == multiset(sinks)
    requires restOpen == openSinks - Members(Dropped(log))
    requires multiset(g.sinks) + multiset(Dropped(g.log)) == multiset(rest)
    requires g.openSinks == restOpen - Members(Dropped(g.log))
    ensures multiset(g.sinks) + multiset(Dropped(log + g.log)) == multiset(sinks)
    ensures g.openSinks == openSinks - Members(Dropped(log + g.log))
  {
    PolledAppend(log, g.log);
    MembersAppend(Dropped(log), Dropped(g.log));
  }

  /** A fan-out ends with no sinks exactly when it reports that it detached
      the last one, and it consumes sink replies in order from k on. */
  lemma {:induction false} FanOutEnds(sinks: seq<SinkRef>, openSinks: set<SinkRef>, u: nat,
                                     data: seq<byte>, replies: nat -> SinkReply, k: nat)
    requires u <= |sinks|
    decreases |sinks| - u
    ensures var f := FanOut(sinks, openSinks, u, data, replies, k);
      (f.status == AllDetached <==> |f.sinks| == 0 && |sinks| > 0) && f.next >= k
  {
    if u < |sinks| {
      var v := Visit(sinks, openSinks, u, replies(k));
      VisitSlots(sinks, openSinks, u, replies(k));
      if v.status == Delivered {
        FanOutEnds(v.sinks, v.openSinks, v.cursor, data, replies, k + 1);
      }
    }
  }

  /** The calls of a fan-out in which every sink accepts the chunk: canWrite
      and write on each sink in turn. */
  function Broadcast(sinks: seq<SinkRef>, data: seq<byte>): (cs: seq<Call>)
    ensures |cs| == 2 * |sinks|
  {
    if sinks == [] then [] else [SinkPoll(sinks[0]), SinkWrite(sinks[0], data)] + Broadcast(sinks[1..], data)
  }

  /** When every sink accepts every write, the fan-out polls and writes each
      sink of slots u.. in turn, consumes one reply per sink and detaches
      none. */
  lemma {:induction false} FanOutAllAccept(sinks: seq<SinkRef>, openSinks: set<SinkRef>, u: nat,
                                          data: seq<byte>, replies: nat -> SinkReply, k: nat)
    requires u <= |sinks|
    requires forall j :: k <= j ==> replies(j).WriteReturns?
    decreases |sinks| - u
    ensures FanOut(sinks, openSinks, u, data, replies, k)
         == Fan(sinks, openSinks, Broadcast(sinks[u..], data), k + |sinks| - u, Delivered)
  {
    if u < |sinks| {
      assert replies(k).WriteReturns?;
      FanOutAllAccept(sinks, openSinks, u + 1, data, replies, k + 1);
      assert sinks[u..][1..] == sinks[u + 1..];
    } else {
      assert sinks[u..] == [];
    }
  }

  // ---------------------------------------------------------------------------
  // The rounds

  /** Byte accounting: the count is the sum of the sizes of the chunks read
      and fully fanned out, rounds i..c-1, and round c is where the loop
      stopped, for the reason given; in particular a chunk whose fan-out
      detached the last sink is not counted. */
  lemma {:induction false} RoundsCount(bytes: nat, bufSize: nat, b: nat, i: nat, r: Rig, src: SourceRef,
                                      script: seq<SourceStep>, replies: nat -> SinkReply, k: nat)
    requires i <= |script|
    decreases |script| - i
    ensures var o := Rounds(bytes, bufSize, b, i, r, src, script, replies, k).0;
      o.Moved? ==> o.why != Idle && exists c :: (i <= c <= |script|
        && Chunks(script[i..c]) && o.count == b + Total(script[i..c]) && StopsAt(script, c, o.why))
  {
    var o := Rounds(bytes, bufSize, b, i, r, src, script, replies, k).0;
    if o.Moved? {
      if bytes != 0 && b >= bytes {
        assert script[i..i] == [];
        assert Chunks(script[i..i]) && o.count == b + Total(script[i..i]);
      } else {
        var polled := r.(calls := r.calls + [SourcePoll(src)]);
        var read := polled.(calls := polled.calls + [SourceRead(src, bufSize)]);
        match StepAt(script, i)
        case NotReadable =>
          assert script[i..i] == [];
        case Data(d) =>
          if |d| == 0 {
            assert script[i..i] == [];
          } else {
            assert i < |script|;
            var f := FanOut(read.sinks, read.openSinks, 0, d, replies, k);
            if f.status == AllDetached {
              assert script[i..i] == [];
            } else {
              assert o == Rounds(bytes, bufSize, b + |d|, i + 1, After(read, f), src, script, replies, f.next).0;
              var c: nat :| i + 1 <= c <= |script| && Chunks(script[i + 1..c])
                && o.count == b + |d| + Total(script[i + 1..c]) && StopsAt(script, c, o.why) && o.why != Idle by {
                RoundsCount(bytes, bufSize, b + |d|, i + 1, After(read, f), src, script, replies, f.next);
              }
              ChunksCons(script, i, c);
            }
          }
      }
    }
  }

  /** The byte budget: a transfer that moved bytes stopped on its budget
      exactly when there is one and the count has reached it. */
  lemma {:induction false} RoundsBudget(bytes: nat, bufSize: nat, b: nat, i: nat, r: Rig, src: SourceRef,
                                       script: seq<SourceStep>, replies: nat -> SinkReply, k: nat)
    decreases |script| - i
    ensures var o := Rounds(bytes, bufSize, b, i, r, src, script, replies, k).0;
      o.Moved? ==> (o.why == Budget <==> bytes != 0 && o.count >= bytes)
  {
    if !(bytes != 0 && b >= bytes) && i < |script| && script[i].Data? && |script[i].bytes| > 0 {
      var d := script[i].bytes;
      var read := r.(calls := r.calls + [SourcePoll(src), SourceRead(src, bufSize)]);
      var f := FanOut(read.sinks, read.openSinks, 0, d, replies, k);
      if f.status == Delivered {
        assert r.calls + [SourcePoll(src)] + [SourceRead(src, bufSize)] == read.calls;
        RoundsBudget(bytes, bufSize, b + |d|, i + 1, After(read, f), src, script, replies, f.next);
      }
    }
  }

  /** The overshoot: every round reads up to bufSize bytes whatever is left
      of the budget, so when the source never delivers more than it is asked
      for, the count stays below the budget plus one chunk. */
  lemma {:induction false} RoundsOvershoot(bytes: nat, bufSize: nat, b: nat, i: nat, r: Rig, src: SourceRef,
                                          script: seq<SourceStep>, replies: nat -> SinkReply, k: nat)
    requires bytes != 0 && b < bytes + bufSize
    requires forall j :: 0 <= j < |script| && script[j].Data? ==> |script[j].bytes| <= bufSize
    decreases |script| - i
    ensures var o := Rounds(bytes, bufSize, b, i, r, src, script, replies, k).0;
      o.Moved? ==> o.count < bytes + bufSize
  {
    if b < bytes && i < |script| && script[i].Data? && |script[i].bytes| > 0 {
      var d := script[i].bytes;
      var read := r.(calls := r.calls + [SourcePoll(src), SourceRead(src, bufSize)]);
      var f := FanOut(read.sinks, read.openSinks, 0, d, replies, k);
      if f.status == Delivered {
        assert r.calls + [SourcePoll(src)] + [SourceRead(src, bufSize)] == read.calls;
        RoundsOvershoot(bytes, bufSize, b + |d|, i + 1, After(read, f), src, script, replies, f.next);
      }
    }
  }

  /** The rounds leave the source's state alone. */
  lemma {:induction false} RoundsKeepSource(bytes: nat, bufSize: nat, b: nat, i: nat, r: Rig, src: SourceRef,
                                           script: seq<SourceStep>, replies: nat -> SinkReply, k: nat)
    decreases |script| - i
    ensures Rounds(bytes, bufSize, b, i, r, src, script, replies, k).1.openSources == r.openSources
  {
    if !(bytes != 0 && b >= bytes) && i < |script| && script[i].Data? && |script[i].bytes| > 0 {
      var d := script[i].bytes;
      var read := r.(calls := r.calls + [SourcePoll(src), SourceRead(src, bufSize)]);
      var f := FanOut(read.sinks, read.openSinks, 0, d, replies, k);
      assert r.calls + [SourcePoll(src)] + [SourceRead(src, bufSize)] == read.calls;
      if f.status == Delivered {
        RoundsKeepSource(bytes, bufSize, b + |d|, i + 1, After(read, f), src, script, replies, f.next);
      }
    }
  }

  /** The rounds end with no sinks when and only when they stop because the
      last sink was detached. */
  lemma {:induction false} RoundsEmpty(bytes: nat, bufSize: nat, b: nat, i: nat, r: Rig, src: SourceRef,
                                      script: seq<SourceStep>, replies: nat -> SinkReply, k: nat)
    requires |r.sinks| > 0
    decreases |script| - i, 1
    ensures var (o, r') := Rounds(bytes, bufSize, b, i, r, src, script, replies, k);
      o.Moved? ==> (o.why == NoSinks <==> |r'.sinks| == 0)
  {
    if !(bytes != 0 && b >= bytes) && i < |script| && script[i].Data? && |script[i].bytes| > 0 {
      var read := r.(calls := r.calls + [SourcePoll(src), SourceRead(src, bufSize)]);
      RoundEmpties(bytes, bufSize, b, i, r, src, script, replies, k, read,
                   FanOut(read.sinks, read.openSinks, 0, script[i].bytes, replies, k));
    }
  }

  /** One data round of `RoundsEmpty`, with the read and the fan-out named. */
  lemma {:induction false} RoundEmpties(bytes: nat, bufSize: nat, b: nat, i: nat, r: Rig, src: SourceRef,
                                       script: seq<SourceStep>, replies: nat -> SinkReply, k: nat,
                                       read: Rig, f: Fan)
    requires |r.sinks| > 0
    requires !(bytes != 0 && b >= bytes) && i < |script| && script[i].Data? && |script[i].bytes| > 0
    requires read == r.(calls := r.calls + [SourcePoll(src), SourceRead(src, bufSize)])
    requires f == FanOut(read.sinks, read.openSinks, 0, script[i].bytes, replies, k)
    decreases |script| - i, 0
    ensures var (o, r') := Rounds(bytes, bufSize, b, i, r, src, script, replies, k);
      o.Moved? ==> (o.why == NoSinks <==> |r'.sinks| == 0)
  {
    RoundsNext(bytes, bufSize, b, i, r, src, script, replies, k, read, f);
    FanOutEnds(read.sinks, read.openSinks, 0, script[i].bytes, replies, k);
    if f.status == Delivered {
      RoundsEmpty(bytes, bufSize, b + |script[i].bytes|, i + 1, After(read, f), src, script, replies, f.next);
    }
  }

  /** `a` is what is left of `b` once some slots have been taken out. */
  predicate Kept(a: seq<SinkRef>, b: seq<SinkRef>)
  {
    multiset(a) <= multiset(b)
  }

  lemma KeptTransitive(a: seq<SinkRef>, b: seq<SinkRef>, c: seq<SinkRef>)
    requires Kept(a, b) && Kept(b, c)
    ensures Kept(a, c)
  {
    assert forall x :: multiset(a)[x] <= multiset(b)[x] <= multiset(c)[x];
  }

  /** A fan-out changes the sink list only by detaching sinks. */
  lemma FanOutShrinks(sinks: seq<SinkRef>, openSinks: set<SinkRef>, u: nat,
                      data: seq<byte>, replies: nat -> SinkReply, k: nat)
    requires u <= |sinks|
    ensures Kept(FanOut(sinks, openSinks, u, data, replies, k).sinks, sinks)
  {
    FanOutDetaches(sinks, openSinks, u, data, replies, k);
  }

  /** The rounds change the sink list only by detaching sinks. */
  lemma {:induction false} RoundsShrink(bytes: nat, bufSize: nat, b: nat, i: nat, r: Rig, src: SourceRef,
                                       script: seq<SourceStep>, replies: nat -> SinkReply, k: nat, res: Rig)
    requires res == Rounds(bytes, bufSize, b, i, r, src, script, replies, k).1
    decreases |script| - i, 1
    ensures Kept(res.sinks, r.sinks)
  {
    if !(bytes != 0 && b >= bytes) && i < |script| && script[i].Data? && |script[i].bytes| > 0 {
      var read := r.(calls := r.calls + [SourcePoll(src), SourceRead(src, bufSize)]);
      var f := FanOut(read.sinks, read.openSinks, 0, script[i].bytes, replies, k);
      RoundShrinks(bytes, bufSize, b, i, r, src, script, replies, k, res, read, f);
    } else {
      RoundsStop(bytes, bufSize, b, i, r, src, script, replies, k);
      assert multiset(res.sinks) == multiset(r.sinks);
    }
  }

  /** A round that reads a chunk: its fan-out only detaches, and so do the
      rounds after it. */
  lemma {:induction false} RoundShrinks(bytes: nat, bufSize: nat, b: nat, i: nat, r: Rig, src: SourceRef,
                                       script: seq<SourceStep>, replies: nat -> SinkReply, k: nat,
                                       res: Rig, read: Rig, f: Fan)
    requires !(bytes != 0 && b >= bytes) && i < |script| && script[i].Data? && |script[i].bytes| > 0
    requires res == Rounds(bytes, bufSize, b, i, r, src, script, replies, k).1
    requires read == r.(calls := r.calls + [SourcePoll(src), SourceRead(src, bufSize)])
    requires f == FanOut(read.sinks, read.openSinks, 0, script[i].bytes, replies, k)
    decreases |script| - i, 0
    ensures Kept(res.sinks, r.sinks)
  {
    RoundsNext(bytes, bufSize, b, i, r, src, script, replies, k, read, f);
    FanOutShrinks(read.sinks, read.openSinks, 0, script[i].bytes, replies, k);
    if f.status == Delivered {
      RoundsShrink(bytes, bufSize, b + |script[i].bytes|, i + 1, After(read, f), src, script, replies, f.next, res);
      KeptTransitive(res.sinks, f.sinks, r.sinks);
    }
  }

  /** A round that reads no chunk ends the rounds without touching the sinks. */
  lemma RoundsStop(bytes: nat, bufSize: nat, b: nat, i: nat, r: Rig, src: SourceRef,
                   script: seq<SourceStep>, replies: nat -> SinkReply, k: nat)
    requires !(!(bytes != 0 && b >= bytes) && i < |script| && script[i].Data? && |script[i].bytes| > 0)
    ensures Rounds(bytes, bufSize, b, i, r, src, script, replies, k).1.sinks == r.sinks
  {
  }

  /** A round that reads a chunk: the rounds go on from the snapshot after
      its fan-out when the fan-out delivered it, and stop there otherwise. */
  lemma RoundsNext(bytes: nat, bufSize: nat, b: nat, i: nat, r: Rig, src: SourceRef,
                   script: seq<SourceStep>, replies: nat -> SinkReply, k: nat, read: Rig, f: Fan)
    requires !(bytes != 0 && b >= bytes) && i < |script| && script[i].Data? && |script[i].bytes| > 0
    requires read == r.(calls := r.calls + [SourcePoll(src), SourceRead(src, bufSize)])
    requires f == FanOut(read.sinks, read.openSinks, 0, script[i].bytes, replies, k)
    ensures f.status == Delivered ==>
      Rounds(bytes, bufSize, b, i, r, src, script, replies, k)
        == Rounds(bytes, bufSize, b + |script[i].bytes|, i + 1, After(read, f), src, script, replies, f.next)
    ensures f.status == Thrown ==> Rounds(bytes, bufSize, b, i, r, src, script, replies, k) == (Raised, After(read, f))
    ensures f.status == AllDetached ==>
      Rounds(bytes, bufSize, b, i, r, src, script, replies, k) == (Moved(b, NoSinks), After(read, f))
  {
    assert r.calls + [SourcePoll(src)] + [SourceRead(src, bufSize)] == read.calls;
  }

  /** `transfer` does nothing at all, and answers 0, exactly when there are no
      sinks or the chunk size is zero. */
  lemma TransferIdle(bytes: nat, bufSize: nat, r: Rig, src: SourceRef,
                     script: seq<SourceStep>, replies: nat -> SinkReply)
    ensures var (o, r') := Transfer(bytes, bufSize, r, src, script, replies);
      (o == Moved(0, Idle) <==> |r.sinks| == 0 || bufSize == 0)
      && (|r.sinks| == 0 || bufSize == 0 ==> r' == r)
  {
    if |r.sinks| > 0 && bufSize > 0 {
      RoundsCount(bytes, bufSize, 0, 0, r, src, script, replies, 0);
    }
  }

  /** What `transfer` answers about its budget: it stopped on the budget
      exactly when there is one and the count reached it; with a source that
      never delivers more than asked for, the count is below the budget plus
      one chunk; and it ends with no sinks only by detaching the last one. */
  lemma TransferBudget(bytes: nat, bufSize: nat, r: Rig, src: SourceRef,
                       script: seq<SourceStep>, replies: nat -> SinkReply)
    requires forall j :: 0 <= j < |script| && script[j].Data? ==> |script[j].bytes| <= bufSize
    ensures var (o, r') := Transfer(bytes, bufSize, r, src, script, replies);
      && (o.Moved? ==> (o.why == Budget <==> bytes != 0 && o.count >= bytes))
      && (o.Moved? && bytes != 0 ==> o.count < bytes + bufSize)
      && r'.openSources == r.openSources
  {
    if |r.sinks| > 0 && bufSize > 0 {
      RoundsBudget(bytes, bufSize, 0, 0, r, src, script, replies, 0);
      if bytes != 0 {
        RoundsOvershoot(bytes, bufSize, 0, 0, r, src, script, replies, 0);
      }
      RoundsKeepSource(bytes, bufSize, 0, 0, r, src, script, replies, 0);
    }
  }

  /** The calls of an unbudgeted transfer in which every sink takes every
      chunk: per chunk, canRead and read on the source and then canWrite and
      write on each sink; at the end, the canRead and read that meet end of
      file. */
  function Stream(chunks: seq<SourceStep>, sinks: seq<SinkRef>, src: SourceRef, bufSize: nat): seq<Call>
    requires Chunks(chunks)
  {
    if chunks == [] then [SourcePoll(src), SourceRead(src, bufSize)]
    else [SourcePoll(src), SourceRead(src, bufSize)] + Broadcast(sinks, chunks[0].bytes)
         + Stream(chunks[1..], sinks, src, bufSize)
  }

  /** The snapshot after a chunk is polled, read and written to every sink. */
  function Drained(r: Rig, src: SourceRef, bufSize: nat, d: seq<byte>): Rig
  {
    r.(calls := r.calls + [SourcePoll(src), SourceRead(src, bufSize)] + Broadcast(r.sinks, d))
  }

  /** One round of an unbudgeted transfer whose sinks take every write: the
      chunk is polled, read and written to every sink, and the count grows by
      its length. */
  lemma DrainRound(bufSize: nat, b: nat, i: nat, r: Rig, src: SourceRef,
                   script: seq<SourceStep>, replies: nat -> SinkReply, k: nat)
    requires i < |script| && script[i].Data? && |script[i].bytes| > 0
    requires forall j :: replies(j).WriteReturns?
    ensures var d := script[i].bytes;
      Rounds(0, bufSize, b, i, r, src, script, replies, k)
        == Rounds(0, bufSize, b + |d|, i + 1, Drained(r, src, bufSize, d), src, script, replies, k + |r.sinks|)
  {
    var d := script[i].bytes;
    var read := r.(calls := r.calls + [SourcePoll(src), SourceRead(src, bufSize)]);
    assert r.calls + [SourcePoll(src)] + [SourceRead(src, bufSize)] == read.calls;
    var f := FanOut(read.sinks, read.openSinks, 0, d, replies, k);
    assert f == Fan(r.sinks, r.openSinks, Broadcast(r.sinks, d), k + |r.sinks|, Delivered) by {
      FanOutAllAccept(read.sinks, read.openSinks, 0, d, replies, k);
      assert read.sinks[0..] == r.sinks;
    }
  }

  /** The last round of an unbudgeted transfer: the source is at end of file. */
  lemma DrainEnd(bufSize: nat, b: nat, i: nat, r: Rig, src: SourceRef,
                 script: seq<SourceStep>, replies: nat -> SinkReply, k: nat)
    requires i == |script|
    ensures Chunks(script[i..])
    ensures Rounds(0, bufSize, b, i, r, src, script, replies, k)
         == (Moved(b + Total(script[i..]), EndOfFile),
             r.(calls := r.calls + Stream(script[i..], r.sinks, src, bufSize)))
  {
    assert script[i..] == [];
    assert r.calls + [SourcePoll(src)] + [SourceRead(src, bufSize)]
        == r.calls + [SourcePoll(src), SourceRead(src, bufSize)];
  }

  /** The chunks from i on: the first one, then the rest. */
  lemma StreamStep(script: seq<SourceStep>, i: nat, sinks: seq<SinkRef>, src: SourceRef, bufSize: nat)
    requires i < |script| && Chunks(script)
    ensures Chunks(script[i..]) && Chunks(script[i + 1..])
    ensures Total(script[i..]) == |script[i].bytes| + Total(script[i + 1..])
    ensures Stream(script[i..], sinks, src, bufSize)
         == [SourcePoll(src), SourceRead(src, bufSize)] + Broadcast(sinks, script[i].bytes)
            + Stream(script[i + 1..], sinks, src, bufSize)
  {
    assert script[i..][0] == script[i] && script[i..][1..] == script[i + 1..];
  }

  /** A round that writes a chunk to every sink, followed by the rest of the
      transfer, is the transfer from that round on. */
  lemma DrainStep(bufSize: nat, b: nat, i: nat, r: Rig, src: SourceRef,
                  script: seq<SourceStep>, replies: nat -> SinkReply, k: nat)
    requires i < |script| && Chunks(script)
    requires forall j :: replies(j).WriteReturns?
    requires var d := script[i].bytes;
      var next := Drained(r, src, bufSize, d);
      Chunks(script[i + 1..]) &&
      Rounds(0, bufSize, b + |d|, i + 1, next, src, script, replies, k + |r.sinks|)
        == (Moved(b + |d| + Total(script[i + 1..]), EndOfFile),
            next.(calls := next.calls + Stream(script[i + 1..], next.sinks, src, bufSize)))
    ensures Chunks(script[i..])
    ensures Rounds(0, bufSize, b, i, r, src, script, replies, k)
         == (Moved(b + Total(script[i..]), EndOfFile),
             r.(calls := r.calls + Stream(script[i..], r.sinks, src, bufSize)))
  {
    DrainRound(bufSize, b, i, r, src, script, replies, k);
    DrainCalls(b, i, r, src, script, bufSize);
  }

  /** The record and the count after one more chunk, followed by the rest of
      the stream, are those of the stream from that chunk on. */
  lemma DrainCalls(b: nat, i: nat, r: Rig, src: SourceRef, script: seq<SourceStep>, bufSize: nat)
    requires i < |script| && Chunks(script)
    ensures Chunks(script[i..]) && Chunks(script[i + 1..])
    ensures var d := script[i].bytes;
      var next := Drained(r, src, bufSize, d);
      && next.sinks == r.sinks
      && b + |d| + Total(script[i + 1..]) == b + Total(script[i..])
      && next.(calls := next.calls + Stream(script[i + 1..], next.sinks, src, bufSize))
         == r.(calls := r.calls + Stream(script[i..], r.sinks, src, bufSize))
  {
    StreamStep(script, i, r.sinks, src, bufSize);
    Regroup(r.calls, [SourcePoll(src), SourceRead(src, bufSize)], Broadcast(r.sinks, script[i].bytes),
            Stream(script[i + 1..], r.sinks, src, bufSize));
  }

  lemma Regroup(a: seq<Call>, b: seq<Call>, c: seq<Call>, d: seq<Call>)
    ensures a + b + c + d == a + (b + c + d)
  {
  }

  lemma {:induction false} RoundsDrain(bufSize: nat, b: nat, i: nat, r: Rig, src: SourceRef,
                                      script: seq<SourceStep>, replies: nat -> SinkReply, k: nat)
    requires i <= |script| && Chunks(script)
    requires forall j :: replies(j).WriteReturns?
    decreases |script| - i
    ensures Chunks(script[i..])
    ensures Rounds(0, bufSize, b, i, r, src, script, replies, k)
         == (Moved(b + Total(script[i..]), EndOfFile),
             r.(calls := r.calls + Stream(script[i..], r.sinks, src, bufSize)))
  {
    if i == |script| {
      DrainEnd(bufSize, b, i, r, src, script, replies, k);
    } else {
      var d := script[i].bytes;
      RoundsDrain(bufSize, b + |d|, i + 1, Drained(r, src, bufSize, d), src, script, replies, k + |r.sinks|);
      DrainStep(bufSize, b, i, r, src, script, replies, k);
    }
  }

  /** With no budget, a source that delivers its chunks and then end of file,
      and sinks that take every write, `transfer` answers the number of bytes
      the source delivered, and every sink receives every chunk, in order and
      with the boundaries it was read with. */
  lemma TransferDrains(bufSize: nat, r: Rig, src: SourceRef, script: seq<SourceStep>,
                       replies: nat -> SinkReply)
    requires |r.sinks| > 0 && bufSize > 0 && Chunks(script)
    requires forall j :: replies(j).WriteReturns?
    ensures Transfer(0, bufSize, r, src, script, replies)
         == (Moved(Total(script), EndOfFile), r.(calls := r.calls + Stream(script, r.sinks, src, bufSize)))
  {
    RoundsDrain(bufSize, 0, 0, r, src, script, replies, 0);
    assert script[0..] == script;
  }
}
