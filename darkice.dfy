/** The DarkIce object: reading the configuration into a table of stream
    outputs, each of whose encoders is attached to the encoder connector,
    and running the encoder connector for the configured duration. */
module Darkice {
  import opened Endpoints
  import opened Session
  import opened Streaming
  import opened Connectors
  import opened Settings

  /** One entry of the output table: empty, or an accepted output. */
  datatype Slot = Empty | Filled(out: Output)

  /** The output passes, in the order `init` runs them. */
  const Kinds: seq<Kind> := [IceCast, IceCast2, ShoutCast, FileCast]

  /** The identity of the audio source that feeds the encoder connector. */
  const Dsp: SourceRef := 0

  /** The chunk size `encode` hands to `transfer`. */
  const ChunkSize: nat := 4096

  const TwoTo64: nat := 0x1_0000_0000_0000_0000

  // ---------------------------------------------------------------------------
  // One output pass

  /** The check a pass applies to each section: a section of a given output
      type, under a given name. */
  type Checker = (Kind, Section, string) -> Result<Output>

  /** The checks of `configIceCast`, `configIceCast2`, `configShoutCast` and
      `configFileCast`, reading numbers with `num`. */
  function Checks(num: string -> int): Checker
  {
    (kind, s, name) => Check(kind, s, name, num)
  }

  /** The pass over the sections of one output type, from loop index u on,
      the pass having started at index `start`: the section of index u is
      looked up under the name for u - start; the pass ends at the first
      missing section or at maxOutput, and a section that fails its check
      ends it with that error. */
  function Scan(cfg: Config, kind: Kind, start: nat, u: nat, maxOutput: nat,
                check: Checker): (r: Result<seq<Output>>)
    requires start <= u
    decreases maxOutput - u
    ensures r.Success? && u >= maxOutput ==> r.value == []
    ensures r.Success? && u < maxOutput ==> u + |r.value| <= maxOutput
  {
    if u >= maxOutput then Success([])
    else
      var name := SectionName(kind, u - start);
      if name !in cfg then Success([])
      else
        var out :- check(kind, cfg[name], name);
        var rest :- Scan(cfg, kind, start, u + 1, maxOutput, check);
        Success([out] + rest)
  }

  /** The section named for index k of a pass is present and its check
      accepts it as `out`. */
  predicate Found(cfg: Config, kind: Kind, check: Checker, k: nat, out: Output)
  {
    var name := SectionName(kind, k);
    name in cfg && check(kind, cfg[name], name) == Success(out)
  }

  /** A pass that succeeds has taken, in order, the sections named for
      u - start, u - start + 1, ..., each accepted by the check of its type,
      and has stopped only at maxOutput or at a missing section: it skips
      none. */
  lemma {:induction false} ScanFinds(cfg: Config, kind: Kind, start: nat, u: nat, maxOutput: nat,
                                    check: Checker)
    requires start <= u && Scan(cfg, kind, start, u, maxOutput, check).Success?
    decreases maxOutput - u
    ensures var outs := Scan(cfg, kind, start, u, maxOutput, check).value;
      forall j :: 0 <= j < |outs| ==> Found(cfg, kind, check, u - start + j, outs[j])
    ensures var outs := Scan(cfg, kind, start, u, maxOutput, check).value;
      u + |outs| < maxOutput ==> SectionName(kind, u - start + |outs|) !in cfg
  {
    var outs := Scan(cfg, kind, start, u, maxOutput, check).value;
    if u < maxOutput && SectionName(kind, u - start) in cfg {
      var name := SectionName(kind, u - start);
      var c := check(kind, cfg[name], name);
      var rest := Scan(cfg, kind, start, u + 1, maxOutput, check);
      assert c.Success? && rest.Success? && outs == [c.value] + rest.value;
      assert Found(cfg, kind, check, u - start, outs[0]);
      ScanFinds(cfg, kind, start, u + 1, maxOutput, check);
      assert u - start + |outs| == u + 1 - start + |rest.value|;
      forall j | 0 < j < |outs|
        ensures Found(cfg, kind, check, u - start + j, outs[j])
      {
        assert Found(cfg, kind, check, u + 1 - start + (j - 1), rest.value[j - 1]);
        assert u - start + j == u + 1 - start + (j - 1);
      }
    }
  }

  /** A successful pass from index u, once the outputs before u are known. */
  function Prepend(found: seq<Output>, r: Result<seq<Output>>): Result<seq<Output>>
  {
    if r.Success? then Success(found + r.value) else r
  }

  /** One turn of the pass loop: a present section that passes its check
      moves to the next index with one more output found. */
  lemma ScanTurn(cfg: Config, kind: Kind, start: nat, u: nat, maxOutput: nat,
                 check: Checker, found: seq<Output>, name: string, out: Output)
    requires start <= u < maxOutput
    requires name == SectionName(kind, u - start) && name in cfg
    requires check(kind, cfg[name], name) == Success(out)
    ensures Prepend(found, Scan(cfg, kind, start, u, maxOutput, check))
        == Prepend(found + [out], Scan(cfg, kind, start, u + 1, maxOutput, check))
  {
    var rest := Scan(cfg, kind, start, u + 1, maxOutput, check);
    if rest.Success? {
      assert found + ([out] + rest.value) == found + [out] + rest.value;
    }
  }

  /** The pass loop ends: at maxOutput or at a missing section nothing more
      is found, and a section that fails its check makes the pass fail. */
  lemma ScanEnds(cfg: Config, kind: Kind, start: nat, u: nat, maxOutput: nat,
                 check: Checker, found: seq<Output>)
    requires start <= u
    ensures u >= maxOutput || SectionName(kind, u - start) !in cfg ==>
      Prepend(found, Scan(cfg, kind, start, u, maxOutput, check)) == Success(found)
    ensures u < maxOutput && SectionName(kind, u - start) in cfg
            && check(kind, cfg[SectionName(kind, u - start)], SectionName(kind, u - start)).Failure? ==>
      Prepend(found, Scan(cfg, kind, start, u, maxOutput, check))
        == Failure(check(kind, cfg[SectionName(kind, u - start)], SectionName(kind, u - start)).error)
  {
    assert found + [] == found;
  }

  // ---------------------------------------------------------------------------
  // All passes

  /** The output table after some passes, one slot per possible output, and
      the count `noAudioOuts` the next pass starts from. */
  datatype Layout = Layout(slots: seq<Slot>, noAudioOuts: nat)

  /** The outputs of a pass written into the slots from `start` on, one slot
      after the other. */
  function Place(slots: seq<Slot>, start: nat, outs: seq<Output>): (r: seq<Slot>)
    requires outs == [] || start + |outs| <= |slots|
    ensures |r| == |slots|
  {
    if outs == [] then slots
    else Place(slots, start, outs[..|outs| - 1])[start + |outs| - 1 := Filled(outs[|outs| - 1])]
  }

  /** Placing fills exactly the slots start..start+|outs|-1, with the outputs
      in order, and leaves every other slot as it was. */
  lemma {:induction false} PlaceFills(slots: seq<Slot>, start: nat, outs: seq<Output>)
    requires outs == [] || start + |outs| <= |slots|
    ensures forall j :: 0 <= j < |slots| ==>
      Place(slots, start, outs)[j] == if start <= j < start + |outs| then Filled(outs[j - start]) else slots[j]
  {
    if outs != [] {
      var init := outs[..|outs| - 1];
      PlaceFills(slots, start, init);
      forall j | 0 <= j < |slots|
        ensures Place(slots, start, outs)[j] == if start <= j < start + |outs| then Filled(outs[j - start]) else slots[j]
      {
        if start <= j < start + |init| {
          assert init[j - start] == outs[j - start];
        }
      }
    }
  }

  /** The index the loop of a pass ends at: where it started when it did not
      run, otherwise one past the last section taken. */
  function EndIndex(start: nat, maxOutput: nat, outs: seq<Output>): nat
  {
    if start < maxOutput then start + |outs| else start
  }

  /** The passes over `kinds`, each starting from the count left by the one
      before.  `asWritten` picks how a pass updates the count: the code adds
      the loop's end index to it, which already includes the count;
      otherwise the count becomes the end index. */
  function Passes(cfg: Config, kinds: seq<Kind>, lay: Layout, maxOutput: nat,
                  check: Checker, asWritten: bool): (r: Result<Layout>)
    requires |lay.slots| == maxOutput
    decreases |kinds|
    ensures r.Success? ==> |r.value.slots| == maxOutput
  {
    if kinds == [] then Success(lay)
    else
      var start := lay.noAudioOuts;
      var outs :- Scan(cfg, kinds[0], start, start, maxOutput, check);
      var u := EndIndex(start, maxOutput, outs);
      var next := if asWritten then start + u else u;
      Passes(cfg, kinds[1..], Layout(Place(lay.slots, start, outs), next), maxOutput, check, asWritten)
  }

  /** The empty output table of maxOutput slots. */
  function EmptyTable(maxOutput: nat): (t: seq<Slot>)
    ensures |t| == maxOutput && forall j :: 0 <= j < maxOutput ==> t[j] == Empty
  {
    seq(maxOutput, _ => Empty)
  }

  /** The output table `init` builds, as the code is written. */
  function PlanAsWritten(cfg: Config, maxOutput: nat, num: string -> int): (r: Result<Layout>)
    ensures r.Success? ==> |r.value.slots| == maxOutput
  {
    Passes(cfg, Kinds, Layout(EmptyTable(maxOutput), 0), maxOutput, Checks(num), true)
  }

  /** The output table `init` builds when each pass sets the count to its end
      index, which is what the count is meant to be. */
  function Plan(cfg: Config, maxOutput: nat, num: string -> int): (r: Result<Layout>)
    ensures r.Success? ==> |r.value.slots| == maxOutput
  {
    Passes(cfg, Kinds, Layout(EmptyTable(maxOutput), 0), maxOutput, Checks(num), false)
  }

  /** The slots 0..noAudioOuts-1 hold outputs and the others are empty. */
  predicate Packed(lay: Layout, maxOutput: nat)
  {
    && |lay.slots| == maxOutput
    && lay.noAudioOuts <= maxOutput
    && forall j :: 0 <= j < maxOutput ==> (lay.slots[j].Filled? <==> j < lay.noAudioOuts)
  }

  /** With the count set to the end index, the passes fill the slots from 0
      up without a gap and never go past maxOutput. */
  lemma {:induction false} PassesPacked(cfg: Config, kinds: seq<Kind>, lay: Layout, maxOutput: nat,
                                       check: Checker)
    requires Packed(lay, maxOutput)
    requires Passes(cfg, kinds, lay, maxOutput, check, false).Success?
    decreases |kinds|
    ensures Packed(Passes(cfg, kinds, lay, maxOutput, check, false).value, maxOutput)
    ensures lay.noAudioOuts <= Passes(cfg, kinds, lay, maxOutput, check, false).value.noAudioOuts
  {
    if kinds != [] {
      var start := lay.noAudioOuts;
      var outs := Scan(cfg, kinds[0], start, start, maxOutput, check).value;
      PlaceFills(lay.slots, start, outs);
      var next := Layout(Place(lay.slots, start, outs), EndIndex(start, maxOutput, outs));
      assert Packed(next, maxOutput);
      PassesPacked(cfg, kinds[1..], next, maxOutput, check);
    }
  }

  /** The table `init` is meant to build holds the outputs in slots
      0..noAudioOuts-1, and noAudioOuts never exceeds maxOutput. */
  lemma PlanPacked(cfg: Config, maxOutput: nat, num: string -> int)
    requires Plan(cfg, maxOutput, num).Success?
    ensures Packed(Plan(cfg, maxOutput, num).value, maxOutput)
  {
    PassesPacked(cfg, Kinds, Layout(EmptyTable(maxOutput), 0), maxOutput, Checks(num));
  }

  /** An IceCast section and a ShoutCast section that are both accepted. */
  const IceSection: Section := map["bitrateMode" := "vbr", "quality" := "0.5", "server" := "localhost",
                                   "port" := "8000", "password" := "pw", "mountPoint" := "live",
                                   "format" := "mp3"]
  const ShoutSection: Section := map["bitrateMode" := "vbr", "quality" := "0.5", "server" := "localhost",
                                     "port" := "8000", "password" := "pw"]

  /** A configuration with one IceCast and one ShoutCast output. */
  const TwoOutputs: Config := map["icecast-0" := IceSection, "shoutcast-0" := ShoutSection]

  /** Both sections of TwoOutputs pass their checks. */
  lemma TwoOutputsAccepted(num: string -> int)
    ensures Checks(num)(IceCast, IceSection, "icecast-0") == Success(Output(IceCast, Mp3, Vbr))
    ensures Checks(num)(ShoutCast, ShoutSection, "shoutcast-0") == Success(Output(ShoutCast, Mp3, Vbr))
  {
    IceSectionAccepted(num);
    ShoutSectionAccepted(num);
    CheckedBy(num, IceCast, IceSection, "icecast-0");
    CheckedBy(num, ShoutCast, ShoutSection, "shoutcast-0");
  }

  lemma CheckedBy(num: string -> int, kind: Kind, s: Section, name: string)
    ensures Checks(num)(kind, s, name) == Check(kind, s, name, num)
  {
  }

  lemma IceSectionAccepted(num: string -> int)
    ensures CheckIceCast(IceSection, "icecast-0", num) == Success(Output(IceCast, Mp3, Vbr))
  {
    assert ReadMode(IceSection, "icecast-0", num, true) == Success(Vbr);
  }

  lemma ShoutSectionAccepted(num: string -> int)
    ensures CheckShoutCast(ShoutSection, "shoutcast-0", num) == Success(Output(ShoutCast, Mp3, Vbr))
  {
    assert ReadMode(ShoutSection, "shoutcast-0", num, true) == Success(Vbr);
  }

  /** The section names the passes over TwoOutputs look up. */
  lemma TwoOutputsNames()
    ensures SectionName(IceCast, 0) == "icecast-0" && SectionName(IceCast, 1) == "icecast-1"
    ensures SectionName(IceCast2, 0) == "icecast2-0" && SectionName(ShoutCast, 0) == "shoutcast-0"
    ensures TwoOutputs["icecast-0"] == IceSection && TwoOutputs["shoutcast-0"] == ShoutSection
    ensures "icecast-1" !in TwoOutputs && "icecast2-0" !in TwoOutputs
  {
    assert "icecast-0"[0] != "shoutcast-0"[0];
    assert "icecast-1"[0] != "shoutcast-0"[0] && "icecast-1"[8] != "icecast-0"[8];
    assert "icecast2-0"[0] != "shoutcast-0"[0] && "icecast2-0"[7] != "icecast-0"[7];
  }

  /** The IceCast and IceCast2 passes over TwoOutputs, with two slots. */
  lemma TwoOutputsFirstPasses(check: Checker)
    requires check(IceCast, IceSection, "icecast-0") == Success(Output(IceCast, Mp3, Vbr))
    ensures Scan(TwoOutputs, IceCast, 0, 0, 2, check) == Success([Output(IceCast, Mp3, Vbr)])
    ensures Scan(TwoOutputs, IceCast2, 1, 1, 2, check) == Success([])
  {
    TwoOutputsNames();
    var ice := Output(IceCast, Mp3, Vbr);
    assert Scan(TwoOutputs, IceCast, 0, 1, 2, check) == Success([]);
    assert [ice] + [] == [ice];
  }

  /** With [icecast-0] and [shoutcast-0] and two output slots, the code as
      written counts 1 after the IceCast pass, 2 after the empty IceCast2
      pass, and so never looks up [shoutcast-0]; the count ends at 8. */
  lemma ShoutCastNeverLookedUp(num: string -> int)
    ensures PlanAsWritten(TwoOutputs, 2, num) == Success(Layout([Filled(Output(IceCast, Mp3, Vbr)), Empty], 8))
  {
    var ice := Output(IceCast, Mp3, Vbr);
    TwoOutputsAccepted(num);
    TwoOutputsFirstPasses(Checks(num));
    assert EmptyTable(2) == [Empty, Empty];
    assert Place(EmptyTable(2), 0, [ice]) == [Filled(ice), Empty];
    assert Kinds[1..][1..] == [ShoutCast, FileCast];
  }

  /** With the count set to the end index, the same configuration gives both
      outputs a slot. */
  lemma ShoutCastFound(num: string -> int)
    ensures Plan(TwoOutputs, 2, num)
         == Success(Layout([Filled(Output(IceCast, Mp3, Vbr)), Filled(Output(ShoutCast, Mp3, Vbr))], 2))
  {
    var ice, shout := Output(IceCast, Mp3, Vbr), Output(ShoutCast, Mp3, Vbr);
    TwoOutputsAccepted(num);
    TwoOutputsNames();
    TwoOutputsFirstPasses(Checks(num));
    assert Scan(TwoOutputs, ShoutCast, 1, 2, 2, Checks(num)) == Success([]);
    assert [shout] + [] == [shout];
    assert Scan(TwoOutputs, ShoutCast, 1, 1, 2, Checks(num)) == Success([shout]);
    assert EmptyTable(2) == [Empty, Empty];
    assert Place(EmptyTable(2), 0, [ice]) == [Filled(ice), Empty];
    assert Place([Filled(ice), Empty], 1, [shout]) == [Filled(ice), Filled(shout)];
    assert Kinds[1..][1..] == [ShoutCast, FileCast];
  }

  // ---------------------------------------------------------------------------
  // The whole of `init`

  /** What `init` reads: [general], then [input], then the output table. */
  function Setup(cfg: Config, maxOutput: nat, num: string -> int): Result<(General, Input, Layout)>
  {
    var general :- ReadGeneral(cfg, num);
    var input :- ReadInput(cfg, num);
    var lay :- Plan(cfg, maxOutput, num);
    Success((general, input, lay))
  }

  /** The encoders of slots start..start+n-1, in slot order; the encoder of
      slot j is known by the identity j. */
  function Encoders(start: nat, n: nat): seq<SinkRef>
  {
    if n == 0 then [] else Encoders(start, n - 1) + [start + n - 1]
  }

  /** The encoders of slots 0..a-1 followed by those of a..a+n-1 are those
      of slots 0..a+n-1. */
  lemma {:induction false} EncodersSplit(a: nat, n: nat)
    ensures Encoders(0, a) + Encoders(a, n) == Encoders(0, a + n)
  {
    if n > 0 {
      EncodersSplit(a, n - 1);
      assert Encoders(0, a) + Encoders(a, n) == Encoders(0, a) + Encoders(a, n - 1) + [a + n - 1];
    }
  }

  /** The list holds each slot's encoder once, in slot order. */
  lemma {:induction false} EncodersInOrder(start: nat, n: nat)
    ensures |Encoders(start, n)| == n
    ensures forall j :: 0 <= j < n ==> Encoders(start, n)[j] == start + j
  {
    if n > 0 {
      EncodersInOrder(start, n - 1);
    }
  }

  // ---------------------------------------------------------------------------
  // `encode`

  /** The bytes of PCM audio the input delivers per second. */
  function BytesPerSecond(input: Input): nat
  {
    input.sampleRate * (input.bitsPerSample / 8) * input.channel
  }

  /** The byte budget of `encode`: sample rate times bytes per sample times
      channels times duration, in an unsigned long. */
  function ByteBudget(input: Input, duration: int): (bytes: nat)
    ensures bytes < TwoTo64
  {
    (input.sampleRate * (input.bitsPerSample / 8) * input.channel * duration) % TwoTo64
  }

  /** The budget is `duration` seconds of audio: when it does not overflow it
      is `duration` times the bytes of one second; a duration of
      0 gives the budget 0, which `transfer` reads as no limit. */
  lemma BudgetIsDuration(input: Input, duration: int)
    ensures duration == 0 ==> ByteBudget(input, duration) == 0
    ensures 0 <= duration && BytesPerSecond(input) * duration < TwoTo64 ==>
              ByteBudget(input, duration) == BytesPerSecond(input) * duration
  {
    var bps := BytesPerSecond(input);
    assert input.sampleRate * (input.bitsPerSample / 8) * input.channel * duration == bps * duration;
  }

  /** How `encode` ends: the count it reports (an unsigned int), or an
      exception because the connector would not open, or one propagated from
      `transfer`. */
  datatype Ending = Encoded(reported: nat) | CannotOpen | TransferRaised

  /** What `encode` does to the encoder connector and its objects: open, then
      transfer the budget in chunks of 4096 bytes, then close. */
  function Encoding(r: Rig, budget: nat, sourceOpens: bool, opens: SinkRef -> bool,
                    script: seq<SourceStep>, replies: nat -> SinkReply): (res: (Ending, Rig))
    ensures res.0 == CannotOpen ==> Dsp !in res.1.openSources
    ensures res.0.Encoded? ==> res.0.reported < TwoTo32 && Dsp !in res.1.openSources
  {
    var (ok, r1) := Session.Open(r, Dsp, sourceOpens, opens);
    if !ok then (CannotOpen, r1)
    else
      var (o, r2) := Transfer(budget, ChunkSize, r1, Dsp, script, replies);
      match o
      case Raised => (TransferRaised, r2)
      case Moved(count, _) => (Encoded(count % TwoTo32), Session.Close(r2, Dsp))
  }

  /** `encode` fails with "can't open connector" exactly when `open` fails,
      and a run whose transfer raised skips `close`, so that the source stays
      open. */
  lemma EncodeOpens(r: Rig, budget: nat, sourceOpens: bool, opens: SinkRef -> bool,
                    script: seq<SourceStep>, replies: nat -> SinkReply)
    requires forall j :: 0 <= j < |script| && script[j].Data? ==> |script[j].bytes| <= ChunkSize
    ensures var (run, r') := Encoding(r, budget, sourceOpens, opens, script, replies);
      && (run == CannotOpen <==> !Session.Open(r, Dsp, sourceOpens, opens).0)
      && (run == TransferRaised ==> Dsp in r'.openSources)
  {
    var (ok, r1) := Session.Open(r, Dsp, sourceOpens, opens);
    OpenSucceedsIff(r, Dsp, sourceOpens, opens);
    if ok {
      TransferBudget(budget, ChunkSize, r1, Dsp, script, replies);
    }
  }

  /** A run that encodes leaves the source and every sink still attached
      closed, and only sinks it started with are still attached. */
  lemma EncodeCloses(r: Rig, budget: nat, sourceOpens: bool, opens: SinkRef -> bool,
                     script: seq<SourceStep>, replies: nat -> SinkReply)
    ensures var (run, r') := Encoding(r, budget, sourceOpens, opens, script, replies);
      && (run.Encoded? ==> Dsp !in r'.openSources && Members(r'.sinks) !! r'.openSinks)
      && (run.Encoded? ==> Members(r'.sinks) <= Members(r.sinks))
  {
    var (ok, r1) := Session.Open(r, Dsp, sourceOpens, opens);
    OpenSucceedsIff(r, Dsp, sourceOpens, opens);
    if ok {
      var (o, r2) := Transfer(budget, ChunkSize, r1, Dsp, script, replies);
      if |r1.sinks| > 0 {
        RoundsShrink(budget, ChunkSize, 0, 0, r1, Dsp, script, replies, 0, r2);
        forall x | x in r2.sinks ensures x in r1.sinks {
          assert multiset(r2.sinks)[x] > 0;
        }
      }
    }
  }

  /** With a budget, a run that encodes reports fewer than budget + 4096
      bytes, when that bound fits the unsigned int. */
  lemma EncodeReports(r: Rig, budget: nat, sourceOpens: bool, opens: SinkRef -> bool,
                      script: seq<SourceStep>, replies: nat -> SinkReply)
    requires forall j :: 0 <= j < |script| && script[j].Data? ==> |script[j].bytes| <= ChunkSize
    requires budget != 0 && budget + ChunkSize <= TwoTo32
    ensures var (run, r') := Encoding(r, budget, sourceOpens, opens, script, replies);
      run.Encoded? ==> run.reported < budget + ChunkSize
  {
    var (ok, r1) := Session.Open(r, Dsp, sourceOpens, opens);
    if ok {
      var (o, r2) := Transfer(budget, ChunkSize, r1, Dsp, script, replies);
      TransferBudget(budget, ChunkSize, r1, Dsp, script, replies);
      if o.Moved? {
        assert o.count % TwoTo32 == o.count;
      }
    }
  }

  // ---------------------------------------------------------------------------
  // The DarkIce object

  class DarkIce {
    const maxOutput: nat
    var audioOuts: array<Slot>
    var noAudioOuts: nat
    var encConnector: Connector
    var duration: int
    var enableRealTime: bool
    var reconnect: bool
    var input: Input

    /** A DarkIce with an empty output table of maxOutput slots. */
    constructor (maxOutput: nat)
      ensures this.maxOutput == maxOutput && noAudioOuts == 0
      ensures fresh(audioOuts) && audioOuts.Length == maxOutput
      ensures forall j :: 0 <= j < maxOutput ==> audioOuts[j] == Empty
    {
      this.maxOutput := maxOutput;
      audioOuts := new Slot[maxOutput](_ => Empty);
      noAudioOuts := 0;
      encConnector := new Connector(Dsp);
      duration, enableRealTime, reconnect := 0, true, true;
      input := Input(0, 0, 0, "");
    }

    /** `init`: the [general] and [input] sections, a new encoder connector
        on the audio source, then the IceCast, IceCast2, ShoutCast and file
        passes in that order, each carrying on from the count the one before
        left.  The first error ends it. */
    method Init(cfg: Config, num: string -> int) returns (r: Result<nat>)
      requires audioOuts.Length == maxOutput
      requires forall j :: 0 <= j < maxOutput ==> audioOuts[j] == Empty
      modifies this, audioOuts
      ensures audioOuts == old(audioOuts)
      ensures var setup := Setup(cfg, maxOutput, num);
        setup.Failure? ==> r == Failure(setup.error)
      ensures var setup := Setup(cfg, maxOutput, num);
        setup.Success? ==>
          var (general, inp, lay) := setup.value;
          && r == Success(lay.noAudioOuts)
          && duration == general.duration && reconnect == general.reconnect
          && enableRealTime == general.realTime && input == inp
          && noAudioOuts == lay.noAudioOuts && audioOuts[..] == lay.slots
          && fresh(encConnector) && encConnector.source == Dsp
          && encConnector.sinks == Encoders(0, noAudioOuts)
    {
      var general :- ReadGeneral(cfg, num);
      duration, reconnect, enableRealTime := general.duration, general.reconnect, general.realTime;
      var inp :- ReadInput(cfg, num);
      input := inp;
      r := Outputs(cfg, num);
    }

    /** The part of `init` after the [general] and [input] sections: a new
        encoder connector on the audio source, then the output passes. */
    method Outputs(cfg: Config, num: string -> int) returns (r: Result<nat>)
      requires audioOuts.Length == maxOutput
      requires forall j :: 0 <= j < maxOutput ==> audioOuts[j] == Empty
      modifies this, audioOuts
      ensures audioOuts == old(audioOuts)
      ensures duration == old(duration) && enableRealTime == old(enableRealTime)
      ensures reconnect == old(reconnect) && input == old(input)
      ensures var p := Plan(cfg, maxOutput, num);
        && (p.Failure? ==> r == Failure(p.error))
        && (p.Success? ==> r == Success(p.value.noAudioOuts) && noAudioOuts == p.value.noAudioOuts
                           && audioOuts[..] == p.value.slots)
      ensures fresh(encConnector) && encConnector.source == Dsp
      ensures r.Success? ==> encConnector.sinks == Encoders(0, noAudioOuts)
    {
      encConnector := new Connector(Dsp);
      noAudioOuts := 0;
      assert audioOuts[..] == EmptyTable(maxOutput);
      r := ConfigOutputs(cfg, Checks(num));
    }

    /** The four output passes of `init`, from an empty table and an encoder
        connector with no sinks. */
    method ConfigOutputs(cfg: Config, check: Checker) returns (r: Result<nat>)
      requires audioOuts.Length == maxOutput && audioOuts[..] == EmptyTable(maxOutput)
      requires noAudioOuts == 0 && encConnector.sinks == []
      modifies this, audioOuts, encConnector
      ensures audioOuts == old(audioOuts) && encConnector == old(encConnector)
      ensures encConnector.source == old(encConnector.source)
      ensures duration == old(duration) && enableRealTime == old(enableRealTime)
      ensures reconnect == old(reconnect) && input == old(input)
      ensures var p := Passes(cfg, Kinds, Layout(EmptyTable(maxOutput), 0), maxOutput, check, false);
        && (p.Failure? ==> r == Failure(p.error))
        && (p.Success? ==> r == Success(p.value.noAudioOuts) && noAudioOuts == p.value.noAudioOuts
                           && audioOuts[..] == p.value.slots && encConnector.sinks == Encoders(0, noAudioOuts))
    {
      ghost var lay0 := Layout(EmptyTable(maxOutput), 0);
      var n;
      ghost var lay1, lay2, lay3, lay4;
      n, lay1 := Pass(cfg, IceCast, check, Kinds, lay0);
      if n.Failure? {
        return Failure(n.error);
      }
      n, lay2 := Pass(cfg, IceCast2, check, Kinds[1..], lay1);
      if n.Failure? {
        return Failure(n.error);
      }
      n, lay3 := Pass(cfg, ShoutCast, check, Kinds[2..], lay2);
      if n.Failure? {
        return Failure(n.error);
      }
      n, lay4 := Pass(cfg, FileCast, check, Kinds[3..], lay3);
      if n.Failure? {
        return Failure(n.error);
      }
      assert Kinds[3..][1..] == [];
      return Success(noAudioOuts);
    }

    /** One pass of `init` over a table that holds `lay`, as the first step of
        the passes over `kinds`. */
    method Pass(cfg: Config, kind: Kind, check: Checker, ghost kinds: seq<Kind>, ghost lay: Layout)
      returns (r: Result<nat>, ghost next: Layout)
      requires |kinds| > 0 && kinds[0] == kind
      requires audioOuts.Length == maxOutput && audioOuts[..] == lay.slots
      requires noAudioOuts == lay.noAudioOuts && encConnector.sinks == Encoders(0, noAudioOuts)
      modifies this, audioOuts, encConnector
      ensures audioOuts == old(audioOuts) && encConnector == old(encConnector)
      ensures encConnector.source == old(encConnector.source)
      ensures duration == old(duration) && enableRealTime == old(enableRealTime)
      ensures reconnect == old(reconnect) && input == old(input)
      ensures r.Failure? ==> Passes(cfg, kinds, lay, maxOutput, check, false) == Failure(r.error)
      ensures r.Success? ==> |next.slots| == maxOutput
      ensures r.Success? ==> (Passes(cfg, kinds, lay, maxOutput, check, false)
                              == Passes(cfg, kinds[1..], next, maxOutput, check, false))
      ensures r.Success? ==> audioOuts[..] == next.slots && noAudioOuts == next.noAudioOuts
      ensures r.Success? ==> encConnector.sinks == Encoders(0, noAudioOuts)
    {
      ghost var start := noAudioOuts;
      r := ConfigPass(cfg, kind, check);
      ghost var s := Scan(cfg, kind, start, start, maxOutput, check);
      if r.Success? {
        next := Layout(Place(lay.slots, start, s.value), EndIndex(start, maxOutput, s.value));
        EncodersSplit(start, |s.value|);
      } else {
        next := lay;
      }
    }

    /** `encode`: open the encoder connector, transfer `duration` seconds of
        audio in chunks of 4096 bytes, then close it.  A connector that will
        not open is an error before any transfer; an exception from the
        transfer leaves without closing. */
    method Encode(dev: Devices, sourceOpens: bool, opens: SinkRef -> bool,
                  script: seq<SourceStep>, replies: nat -> SinkReply) returns (run: Ending)
      requires encConnector.source == Dsp
      modifies encConnector, dev
      ensures (run, encConnector.State(dev))
           == Encoding(old(encConnector.State(dev)), ByteBudget(input, duration), sourceOpens, opens, script, replies)
    {
      var ok := encConnector.Open(dev, sourceOpens, opens);
      if !ok {
        return CannotOpen;
      }
      var bytes := ByteBudget(input, duration);
      var o := encConnector.Transfer(dev, bytes, ChunkSize, script, replies);
      if o.Raised? {
        return TransferRaised;
      }
      encConnector.Close(dev);
      return Encoded(o.count % TwoTo32);
    }

    /** One output pass (`configIceCast`, `configIceCast2`, `configShoutCast`
        or `configFileCast`, whose section checks are `check`): each accepted
        section fills the next slot and its encoder is attached to the
        encoder connector.  The count is set to the loop's end index; the
        code as written adds that index to it (see Passes). */
    method ConfigPass(cfg: Config, kind: Kind, check: Checker) returns (r: Result<nat>)
      requires audioOuts.Length == maxOutput
      modifies this, audioOuts, encConnector
      ensures audioOuts == old(audioOuts) && encConnector == old(encConnector)
      ensures encConnector.source == old(encConnector.source)
      ensures duration == old(duration) && enableRealTime == old(enableRealTime)
      ensures reconnect == old(reconnect) && input == old(input)
      ensures var s := Scan(cfg, kind, old(noAudioOuts), old(noAudioOuts), maxOutput, check);
        s.Failure? ==> r == Failure(s.error)
      ensures var start := old(noAudioOuts);
        var s := Scan(cfg, kind, start, start, maxOutput, check);
        s.Success? ==>
          && r == Success(|s.value|)
          && noAudioOuts == EndIndex(start, maxOutput, s.value)
          && audioOuts[..] == Place(old(audioOuts[..]), start, s.value)
          && encConnector.sinks == old(encConnector.sinks) + Encoders(start, |s.value|)
    {
      var start := noAudioOuts;
      var status, u;
      ghost var found;
      status, u, found := Collect(cfg, kind, check, start);
      if status.Failure? {
        return status;
      }
      noAudioOuts := u;
      return Success(u - start);
    }

    /** The loop of a configuration pass, from slot `start`: stops at the
        first absent section or at `maxOutput`, and fails at the first
        section its check refuses. */
    method Collect(cfg: Config, kind: Kind, check: Checker, start: nat)
      returns (status: Result<nat>, u: nat, ghost found: seq<Output>)
      requires audioOuts.Length == maxOutput
      modifies audioOuts, encConnector
      ensures start <= u && |found| == u - start && (u <= maxOutput || u == start)
      ensures var s0 := Scan(cfg, kind, start, start, maxOutput, check);
        && (status.Failure? ==> s0 == Failure(status.error))
        && (status.Success? ==> s0 == Success(found))
      ensures Holds(old(audioOuts[..]), old(encConnector.sinks), old(encConnector.source), start, found)
    {
      u := start;
      found := [];
      ghost var table := audioOuts[..];
      ghost var attached := encConnector.sinks;
      ghost var source := encConnector.source;
      ghost var s0 := Scan(cfg, kind, start, start, maxOutput, check);
      if s0.Success? {
        assert [] + s0.value == s0.value;
      }
      status := Success(0);
      while status.Success? && u < maxOutput
        invariant start <= u && |found| == u - start
        invariant u <= maxOutput || u == start
        invariant status.Success? ==> s0 == Prepend(found, Scan(cfg, kind, start, u, maxOutput, check))
        invariant status.Failure? ==> s0 == Failure(status.error)
        invariant Holds(table, attached, source, start, found)
        modifies audioOuts, encConnector
        decreases maxOutput - u, if status.Success? then 1 else 0
      {
        var name := SectionName(kind, u - start);
        if name !in cfg {
          break;
        }
        var out := check(kind, cfg[name], name);
        if out.Failure? {
          ScanEnds(cfg, kind, start, u, maxOutput, check, found);
          status := Failure(out.error);
        } else {
          ScanTurn(cfg, kind, start, u, maxOutput, check, found, name, out.value);
          Take(u, out.value, table, attached, source, start, found);
          found := found + [out.value];
          u := u + 1;
        }
      }
      if status.Success? {
        ScanEnds(cfg, kind, start, u, maxOutput, check, found);
      }
    }

    /** The table holds the outputs found so far from slot `start` on, and
        their encoders are attached after the ones attached before. */
    ghost predicate Holds(table: seq<Slot>, attached: seq<SinkRef>, source: SourceRef,
                          start: nat, found: seq<Output>)
      reads this, audioOuts, encConnector
    {
      && |table| == audioOuts.Length
      && (found == [] || start + |found| <= |table|)
      && audioOuts[..] == Place(table, start, found)
      && encConnector.sinks == attached + Encoders(start, |found|)
      && encConnector.source == source
    }

    /** Puts an accepted output in slot u, the one after those found so far,
        and attaches its encoder. */
    method Take(u: nat, out: Output, ghost table: seq<Slot>, ghost attached: seq<SinkRef>,
                ghost source: SourceRef, ghost start: nat, ghost found: seq<Output>)
      requires u < audioOuts.Length && u == start + |found|
      requires Holds(table, attached, source, start, found)
      modifies audioOuts, encConnector
      ensures Holds(table, attached, source, start, found + [out])
    {
      audioOuts[u] := Filled(out);
      encConnector.Attach(u);
      assert (found + [out])[..|found|] == found;
    }
  }
}
