/** The connector's ordered list of sink references: what `attach` and `detach`
    make of it.  Entries are identities; the same sink may be attached twice and
    then occupies two slots. */
module SinkList {
  import opened Endpoints

  /** The index of the first slot holding `s`, or |sinks| when no slot does. */
  function IndexOf(sinks: seq<SinkRef>, s: SinkRef): (ix: nat)
    ensures ix <= |sinks|
    ensures ix < |sinks| ==> sinks[ix] == s
    ensures forall j :: 0 <= j < ix ==> sinks[j] != s
    ensures ix == |sinks| <==> s !in sinks
  {
    if sinks == [] then 0
    else if sinks[0] == s then 0
    else 1 + IndexOf(sinks[1..], s)
  }

  /** The list with slot ix taken out, the others in their order. */
  function Without(sinks: seq<SinkRef>, ix: nat): (r: seq<SinkRef>)
    requires ix < |sinks|
    ensures |r| == |sinks| - 1
    ensures forall j :: 0 <= j < ix ==> r[j] == sinks[j]
    ensures forall j :: ix <= j < |r| ==> r[j] == sinks[j + 1]
  {
    sinks[..ix] + sinks[ix + 1..]
  }

  /** `detach(s)` as written: with no sinks it fails; with exactly one it
      empties the list whatever `s` is; otherwise it removes the first slot
      holding `s`, or fails and leaves the list alone. */
  function DetachedAsWritten(sinks: seq<SinkRef>, s: SinkRef): (r: (bool, seq<SinkRef>))
    ensures r.0 <==> |sinks| == 1 || s in sinks
    ensures r.0 ==> |r.1| == |sinks| - 1
    ensures !r.0 ==> r.1 == sinks
  {
    if |sinks| == 0 then (false, sinks)
    else if |sinks| == 1 then (true, [])
    else
      var ix := IndexOf(sinks, s);
      if ix == |sinks| then (false, sinks)
      else (true, Without(sinks, ix))
  }

  /** With a single sink attached, `detach` of any sink succeeds and removes
      the sink that is attached, even when it is another sink: detaching 2
      from [1] answers true and leaves no sinks. */
  lemma SoleSinkDetachedByAnyone(sinks: seq<SinkRef>, s: SinkRef)
    ensures |sinks| == 1 ==> DetachedAsWritten(sinks, s) == (true, [])
    ensures DetachedAsWritten([1], 2) == (true, []) && 2 !in [1]
  {
  }

  /** What `detach(s)` answers and what list it leaves, as intended: it removes
      the first slot holding `s`, whatever the number of sinks, and fails,
      leaving the list alone, when no slot holds `s`. */
  function Detached(sinks: seq<SinkRef>, s: SinkRef): (r: (bool, seq<SinkRef>))
    ensures r.0 <==> s in sinks
    ensures r.0 ==> |r.1| == |sinks| - 1
    ensures !r.0 ==> r.1 == sinks
  {
    var ix := IndexOf(sinks, s);
    if ix == |sinks| then (false, sinks)
    else (true, Without(sinks, ix))
  }

  /** For a sink that is attached, which is how `transfer` calls `detach`,
      the code as written and the intended behaviour agree. */
  lemma DetachAgreesWhenAttached(sinks: seq<SinkRef>, s: SinkRef)
    requires s in sinks
    ensures DetachedAsWritten(sinks, s) == Detached(sinks, s)
  {
    if |sinks| == 1 {
      assert sinks[0] == s;
    }
  }

  /** A successful detach removes exactly the first slot holding `s`: the
      slots before it and after it keep their order, and one copy of `s`
      leaves the list. */
  lemma DetachRemovesFirstMatch(sinks: seq<SinkRef>, s: SinkRef)
    requires s in sinks
    ensures var ix := IndexOf(sinks, s);
      && Detached(sinks, s) == (true, sinks[..ix] + sinks[ix + 1..])
      && multiset(Detached(sinks, s).1) + multiset{s} == multiset(sinks)
  {
    var ix := IndexOf(sinks, s);
    var before, after := sinks[..ix], sinks[ix + 1..];
    var d := Detached(sinks, s).1;
    assert d == Without(sinks, ix) == before + after;
    assert sinks == (before + [s]) + after;
    assert multiset(sinks) == multiset(before + [s]) + multiset(after);
    assert multiset(before + [s]) == multiset(before) + multiset{s};
    assert multiset(d) == multiset(before) + multiset(after);
  }

  /** Detaching a sink that occupies a slot removes one copy of it. */
  lemma DetachOneCopy(sinks: seq<SinkRef>, s: SinkRef)
    requires s in sinks
    ensures multiset(Detached(sinks, s).1) + multiset([s]) == multiset(sinks)
  {
    DetachRemovesFirstMatch(sinks, s);
  }

  /** Attaching `s` and then detaching it answers true and leaves the same
      sinks, as many times each; when `s` was not attached before, it leaves
      exactly the list there was.  Detaching a sink that is not attached
      answers false and changes nothing. */
  lemma AttachThenDetach(sinks: seq<SinkRef>, s: SinkRef)
    ensures Detached(sinks + [s], s).0
    ensures multiset(Detached(sinks + [s], s).1) == multiset(sinks)
    ensures s !in sinks ==> Detached(sinks + [s], s).1 == sinks
    ensures s !in sinks ==> Detached(sinks, s) == (false, sinks)
  {
    var t := sinks + [s];
    DetachRemovesFirstMatch(t, s);
    var ix := IndexOf(t, s);
    if s !in sinks {
      assert ix == |sinks|;
      assert t[..ix] + t[ix + 1..] == sinks;
    }
    var d := Detached(t, s).1;
    assert multiset(t) == multiset(sinks) + multiset{s};
    assert multiset(d) + multiset{s} == multiset(sinks) + multiset{s};
    assert forall x :: multiset(d)[x] == (multiset(d) + multiset{s})[x] - multiset{s}[x];
  }

  /** Detaching the sink found at slot u (by `transfer`, which detaches the
      sink it is visiting) shifts every later slot down by one, onto slot u:
      the removed slot is the first match, which is at u or before it. */
  lemma DetachAtCursor(sinks: seq<SinkRef>, u: nat)
    requires u < |sinks|
    ensures var r := Detached(sinks, sinks[u]);
      r.0 && r.1[u..] == sinks[u + 1..]
  {
    var s := sinks[u];
    var r := Detached(sinks, s);
    var ix := IndexOf(sinks, s);
    assert ix <= u;
    assert r.1 == Without(sinks, ix);
    assert r.1[u..] == sinks[u + 1..];
  }
}
