/** The Source and Sink objects the connector talks to.  They are outside the
    connector: their identities, their open/closed state and the ordered record
    of every call the connector makes on them are all this model keeps of them.
    What a Source or a Sink answers comes from oracles handed to each operation. */
module Endpoints {

  newtype byte = x: int | 0 <= x < 256

  /** Pointer identity of a Source object. */
  type SourceRef = nat

  /** Pointer identity of a Sink object; the sink list compares these, never values. */
  type SinkRef = nat

  /** One call the connector makes on a Source or a Sink. */
  datatype Call =
    | SourceOpen(src: SourceRef)
    | SourceClose(src: SourceRef)
    | SourcePoll(src: SourceRef)                  // canRead(sec, usec)
    | SourceRead(src: SourceRef, len: nat)        // read(buf, len)
    | SinkOpen(sink: SinkRef)
    | SinkClose(sink: SinkRef)
    | SinkPoll(sink: SinkRef)                     // canWrite(sec, usec)
    | SinkWrite(sink: SinkRef, data: seq<byte>)   // write(buf, d)

  /** What the Source does in one round of the transfer loop. */
  datatype SourceStep =
    | NotReadable                 // canRead returned false
    | CanReadThrows               // canRead raised an exception (select error)
    | ReadThrows                  // canRead returned true, read raised an exception
    | Data(bytes: seq<byte>)      // canRead returned true, read delivered these bytes (none: end of file)

  /** What one Sink does when the fan-out visits it. */
  datatype SinkReply =
    | NotWritable                 // canWrite returned false
    | CanWriteThrows              // canWrite raised an exception
    | WriteReturns(count: nat)    // write returned a count, which the connector ignores
    | WriteThrows                 // write raised an exception

  /** The Source step of round i; a script that has run out reports end of file. */
  function StepAt(script: seq<SourceStep>, i: nat): (st: SourceStep)
    ensures i >= |script| ==> st == Data([])
    ensures i < |script| ==> st == script[i]
  {
    if i < |script| then script[i] else Data([])
  }

  /** The calls that close each sink of `sinks`, in order. */
  function Closes(sinks: seq<SinkRef>): (cs: seq<Call>)
    ensures |cs| == |sinks|
    ensures forall j :: 0 <= j < |sinks| ==> cs[j] == SinkClose(sinks[j])
  {
    if sinks == [] then [] else [SinkClose(sinks[0])] + Closes(sinks[1..])
  }

  /** The external objects: which are open, and every call made on them so far. */
  class Devices {
    var openSources: set<SourceRef>
    var openSinks: set<SinkRef>
    var calls: seq<Call>

    constructor (sources: set<SourceRef>, sinks: set<SinkRef>)
      ensures openSources == sources && openSinks == sinks && calls == []
    {
      openSources, openSinks, calls := sources, sinks, [];
    }

    /** Source::open; `succeeds` is the Source's answer. */
    method OpenSource(src: SourceRef, succeeds: bool) returns (ok: bool)
      modifies this
      ensures ok == succeeds
      ensures openSources == if ok then old(openSources) + {src} else old(openSources)
      ensures openSinks == old(openSinks) && calls == old(calls) + [SourceOpen(src)]
    {
      ok := succeeds;
      if ok {
        openSources := openSources + {src};
      }
      calls := calls + [SourceOpen(src)];
    }

    /** Source::close; closing a closed source changes nothing but the record. */
    method CloseSource(src: SourceRef)
      modifies this
      ensures openSources == old(openSources) - {src}
      ensures openSinks == old(openSinks) && calls == old(calls) + [SourceClose(src)]
    {
      openSources := openSources - {src};
      calls := calls + [SourceClose(src)];
    }

    /** Sink::open; `succeeds` is the Sink's answer. */
    method OpenSink(s: SinkRef, succeeds: bool) returns (ok: bool)
      modifies this
      ensures ok == succeeds
      ensures openSinks == if ok then old(openSinks) + {s} else old(openSinks)
      ensures openSources == old(openSources) && calls == old(calls) + [SinkOpen(s)]
    {
      ok := succeeds;
      if ok {
        openSinks := openSinks + {s};
      }
      calls := calls + [SinkOpen(s)];
    }

    /** Sink::close. */
    method CloseSink(s: SinkRef)
      modifies this
      ensures openSinks == old(openSinks) - {s}
      ensures openSources == old(openSources) && calls == old(calls) + [SinkClose(s)]
    {
      openSinks := openSinks - {s};
      calls := calls + [SinkClose(s)];
    }

    /** Records a call that leaves every object's open state as it is. */
    method Record(c: Call)
      requires !c.SourceOpen? && !c.SourceClose? && !c.SinkOpen? && !c.SinkClose?
      modifies this
      ensures openSources == old(openSources) && openSinks == old(openSinks)
      ensures calls == old(calls) + [c]
    {
      calls := calls + [c];
    }
  }
}
