/** What `open` and `close` do to the connector's sources and sinks, as
    functions of a snapshot of the connector and the objects it holds. */
module Session {
  import opened Endpoints

  /** The connector's sink list together with the state of the objects it
      talks to: which are open and every call made on them so far. */
  datatype Rig = Rig(sinks: seq<SinkRef>, openSources: set<SourceRef>,
                     openSinks: set<SinkRef>, calls: seq<Call>)

  /** The distinct sinks of a list. */
  function Members(sinks: seq<SinkRef>): set<SinkRef>
  {
    set x | x in sinks
  }

  /** The sink-opening walk of `open`, from slot u on: a sink already open is
      left alone, a closed one is opened, and the walk stops at the first sink
      that refuses to open.  Answers the slot it stopped at (|sinks| when every
      sink is open) and the snapshot after the walk.  `opens` is each sink's
      answer to open(). */
  function OpenWalk(r: Rig, opens: SinkRef -> bool, u: nat): (res: (nat, Rig))
    requires u <= |r.sinks|
    decreases |r.sinks| - u
    ensures u <= res.0 <= |r.sinks|
    ensures res.1.sinks == r.sinks && res.1.openSources == r.openSources
    ensures forall j :: u <= j < res.0 ==> r.sinks[j] in r.openSinks || opens(r.sinks[j])
    ensures res.0 < |r.sinks| ==> r.sinks[res.0] !in r.openSinks && !opens(r.sinks[res.0])
    ensures |res.1.calls| >= |r.calls| && res.1.calls[..|r.calls|] == r.calls
    ensures forall c :: c in res.1.calls[|r.calls|..] ==> c.SinkOpen? && c.sink !in r.openSinks
  {
    if u == |r.sinks| then (u, r)
    else
      var s := r.sinks[u];
      if s in r.openSinks then
        OpenWalk(r, opens, u + 1)
      else if opens(s) then
        var r' := r.(openSinks := r.openSinks + {s}, calls := r.calls + [SinkOpen(s)]);
        var res := OpenWalk(r', opens, u + 1);
        assert res.1.calls[|r.calls|..] == [SinkOpen(s)] + res.1.calls[|r'.calls|..];
        res
      else
        (u, r.(calls := r.calls + [SinkOpen(s)]))
  }

  /** The walk opens sinks and closes none: afterwards the open sinks are
      those open before plus sinks of the slots it went through, and when it
      went through every slot all of their sinks are open. */
  lemma {:induction false} OpenWalkOpens(r: Rig, opens: SinkRef -> bool, u: nat)
    requires u <= |r.sinks|
    decreases |r.sinks| - u
    ensures var res := OpenWalk(r, opens, u);
      && r.openSinks <= res.1.openSinks
      && (forall x :: x in res.1.openSinks && x !in r.openSinks ==> x in r.sinks[u..res.0])
      && (res.0 == |r.sinks| ==> forall j :: u <= j < |r.sinks| ==> r.sinks[j] in res.1.openSinks)
  {
    if u < |r.sinks| {
      var s := r.sinks[u];
      var res := OpenWalk(r, opens, u);
      if s in r.openSinks {
        OpenWalkOpens(r, opens, u + 1);
        assert forall x :: x in r.sinks[u + 1..res.0] ==> x in r.sinks[u..res.0];
      } else if opens(s) {
        var r' := r.(openSinks := r.openSinks + {s}, calls := r.calls + [SinkOpen(s)]);
        OpenWalkOpens(r', opens, u + 1);
        assert r.sinks[u..res.0] == [s] + r.sinks[u + 1..res.0];
      }
    }
  }

  /** Closes the listed sinks, in order. */
  function CloseSinks(r: Rig, list: seq<SinkRef>): Rig
  {
    r.(openSinks := r.openSinks - Members(list), calls := r.calls + Closes(list))
  }

  /** Closes the source. */
  function CloseSourceOf(r: Rig, src: SourceRef): Rig
  {
    r.(openSources := r.openSources - {src}, calls := r.calls + [SourceClose(src)])
  }

  /** The snapshot once the source is open: unchanged when it already was,
      otherwise after a successful open() of the source. */
  function SourceOpened(r: Rig, src: SourceRef): Rig
  {
    if src in r.openSources then r
    else r.(openSources := r.openSources + {src}, calls := r.calls + [SourceOpen(src)])
  }

  /** What `open()` answers and leaves, given the source's answer to open() and
      each sink's.  The source is opened only when it is closed, and a refusal
      ends `open` there.  When a sink refuses, the sinks of every slot before it
      are closed, including those already open before the call, and then the
      source. */
  function Open(r: Rig, src: SourceRef, sourceOpens: bool, opens: SinkRef -> bool): (res: (bool, Rig))
    ensures res.0 <==> src in res.1.openSources
    ensures res.1.sinks == r.sinks
  {
    if src !in r.openSources && !sourceOpens then
      (false, r.(calls := r.calls + [SourceOpen(src)]))
    else
      var (u, r2) := OpenWalk(SourceOpened(r, src), opens, 0);
      if u < |r.sinks| then (false, CloseSourceOf(CloseSinks(r2, r.sinks[..u]), src))
      else (true, r2)
  }

  /** What `close()` leaves: the source closed first, then every attached sink
      in order; the sink list is kept. */
  function Close(r: Rig, src: SourceRef): (r': Rig)
    ensures r'.sinks == r.sinks
    ensures r'.calls == r.calls + [SourceClose(src)] + Closes(r.sinks)
    ensures r'.openSources == r.openSources - {src}
    ensures r'.openSinks == r.openSinks - Members(r.sinks)
  {
    CloseSinks(CloseSourceOf(r, src), r.sinks)
  }

  /** The calls `open` makes before any rollback: the source's open() when
      the source was closed, and open() on sinks that were closed. */
  lemma OpenWalkCalls(r: Rig, src: SourceRef, opens: SinkRef -> bool)
    ensures var r2 := OpenWalk(SourceOpened(r, src), opens, 0).1;
      && |r2.calls| >= |r.calls| && r2.calls[..|r.calls|] == r.calls
      && forall c :: c in r2.calls[|r.calls|..] ==>
           (c == SourceOpen(src) && src !in r.openSources) || (c.SinkOpen? && c.sink !in r.openSinks)
  {
    var r1 := SourceOpened(r, src);
    var r2 := OpenWalk(r1, opens, 0).1;
    if src !in r.openSources {
      assert r2.calls[|r.calls|..] == [SourceOpen(src)] + r2.calls[|r1.calls|..];
    }
  }

  /** A source that is closed and refuses to open fails `open`, and no sink is
      touched: the only call made is the source's open(). */
  lemma OpenSourceRefuses(r: Rig, src: SourceRef, opens: SinkRef -> bool)
    requires src !in r.openSources
    ensures Open(r, src, false, opens) == (false, r.(calls := r.calls + [SourceOpen(src)]))
  {
  }

  /** `open` succeeds exactly when the source is open or opens and every
      attached sink is open or opens; it then leaves the source and every sink
      open, and closes nothing. */
  lemma OpenSucceedsIff(r: Rig, src: SourceRef, sourceOpens: bool, opens: SinkRef -> bool)
    ensures var (ok, r') := Open(r, src, sourceOpens, opens);
      && (ok <==> (src in r.openSources || sourceOpens)
                  && forall j :: 0 <= j < |r.sinks| ==> r.sinks[j] in r.openSinks || opens(r.sinks[j]))
      && (ok ==> src in r'.openSources && Members(r.sinks) <= r'.openSinks
                 && r.openSinks <= r'.openSinks && r'.sinks == r.sinks)
  {
    if src in r.openSources || sourceOpens {
      var (u, r2) := OpenWalk(SourceOpened(r, src), opens, 0);
      OpenWalkOpens(SourceOpened(r, src), opens, 0);
      assert r.sinks[0..] == r.sinks;
    }
  }

  /** When the source opens but the sink of slot u refuses (u being the first
      slot whose sink is closed and refuses), `open` answers false, closes the
      sinks of slots 0..u-1 in order, those open before the call too, then
      closes the source.  Sinks of later slots keep whatever state they had. */
  lemma OpenRollsBack(r: Rig, src: SourceRef, sourceOpens: bool, opens: SinkRef -> bool, u: nat)
    requires src in r.openSources || sourceOpens
    requires u < |r.sinks| && r.sinks[u] !in r.openSinks && !opens(r.sinks[u])
    requires forall j :: 0 <= j < u ==> r.sinks[j] in r.openSinks || opens(r.sinks[j])
    ensures var (ok, r') := Open(r, src, sourceOpens, opens);
      && !ok && r'.sinks == r.sinks
      && src !in r'.openSources
      && r'.openSinks == r.openSinks - Members(r.sinks[..u])
      && exists pre: seq<Call> ::
           && r'.calls == r.calls + pre + Closes(r.sinks[..u]) + [SourceClose(src)]
           && forall c :: c in pre ==> (c == SourceOpen(src) && src !in r.openSources) || (c.SinkOpen? && c.sink !in r.openSinks)
  {
    var r1 := SourceOpened(r, src);
    var (v, r2) := OpenWalk(r1, opens, 0);
    assert v == u;
    assert r.sinks[0..u] == r.sinks[..u];
    OpenWalkOpens(r1, opens, 0);
    OpenWalkCalls(r, src, opens);
    var pre := r2.calls[|r.calls|..];
    assert r2.calls == r.calls + pre;
  }

  /** `open` calls open() on no sink that was open before the call. */
  lemma OpenNeverReopens(r: Rig, src: SourceRef, sourceOpens: bool, opens: SinkRef -> bool, s: SinkRef)
    requires s in r.openSinks
    ensures var r' := Open(r, src, sourceOpens, opens).1;
      |r'.calls| >= |r.calls| && r'.calls[..|r.calls|] == r.calls
      && SinkOpen(s) !in r'.calls[|r.calls|..]
  {
    if src in r.openSources || sourceOpens {
      var (u, r2) := OpenWalk(SourceOpened(r, src), opens, 0);
      OpenWalkCalls(r, src, opens);
      var pre := r2.calls[|r.calls|..];
      assert r2.calls == r.calls + pre;
      assert SinkOpen(s) !in pre;
      if u < |r.sinks| {
        var tail := Closes(r.sinks[..u]) + [SourceClose(src)];
        assert CloseSourceOf(CloseSinks(r2, r.sinks[..u]), src).calls == r2.calls + tail;
        ClosesOpenNothing(r.sinks[..u], src, s);
        Extended(r.calls, pre, tail, SinkOpen(s));
      } else {
        Extended(r.calls, pre, [], SinkOpen(s));
      }
    }
  }

  /** Closing calls open() on nothing. */
  lemma ClosesOpenNothing(list: seq<SinkRef>, src: SourceRef, s: SinkRef)
    ensures SinkOpen(s) !in Closes(list) + [SourceClose(src)]
  {
  }

  /** A call in neither of two runs of calls is not among what they add. */
  lemma Extended(calls: seq<Call>, pre: seq<Call>, tail: seq<Call>, c: Call)
    requires c !in pre && c !in tail
    ensures var all := calls + pre + tail;
      |all| >= |calls| && all[..|calls|] == calls && c !in all[|calls|..]
  {
    var all := calls + pre + tail;
    assert all[|calls|..] == pre + tail;
  }
}
