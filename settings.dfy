/** The decisions DarkIce takes while reading its configuration: the
    [general] and [input] settings, and whether a stream output section is
    accepted, with the first complaint it raises when it is not.  A section is
    a map from key to value; the configuration maps section names to
    sections. */
module Settings {

  type Section = map<string, string>
  type Config = map<string, Section>

  /** Why reading the configuration fails (each is an exception in DarkIce). */
  datatype Error =
    | NoSection(name: string)                // a required section is missing
    | Missing(key: string, section: string)  // a required key is missing
    | ZeroBufferSecs                         // bufferSecs is 0
    | BadMode(written: string)               // bitrateMode is none of cbr, abr, vbr
    | NoBitrate(needs: Mode)                 // the mode needs a nonzero bitrate
    | NoQuality(needs: Mode)                 // the mode needs a quality key
    | BadFormat(format: string)              // the output type does not take this format
    | AacNeedsAbr                            // a file output in aac is not in abr mode

  datatype Result<+T> = Success(value: T) | Failure(error: Error)
  {
    predicate IsFailure() { Failure? }

    function PropagateFailure<U>(): Result<U>
      requires Failure?
    {
      Failure(error)
    }

    function Extract(): T
      requires Success?
    {
      value
    }
  }

  datatype Mode = Cbr | Abr | Vbr
  datatype Format = Vorbis | Mp3 | Mp2 | Aac
  datatype Kind = IceCast | IceCast2 | ShoutCast | FileCast

  /** An accepted output section: its type, its stream format and its mode. */
  datatype Output = Output(kind: Kind, format: Format, mode: Mode)

  /** The [general] settings. */
  datatype General = General(duration: int, bufferSecs: nat, reconnect: bool, realTime: bool)

  /** The [input] settings. */
  datatype Input = Input(sampleRate: nat, bitsPerSample: nat, channel: nat, device: string)

  const TwoTo32: nat := 0x1_0000_0000

  /** The `long` that Util::strToL makes of a value, stored in an `unsigned int`. */
  function UInt(num: string -> int, value: string): (n: nat)
    ensures n < TwoTo32
    ensures 0 <= num(value) < TwoTo32 ==> n == num(value)
  {
    num(value) % TwoTo32
  }

  /** ConfigSection::getForSure: the value of a key that must be there. */
  function Required(s: Section, key: string, section: string): (r: Result<string>)
    ensures r.Success? <==> key in s
    ensures r.Success? ==> r.value == s[key]
    ensures r.Failure? ==> r.error == Missing(key, section)
  {
    if key in s then Success(s[key]) else Failure(Missing(key, section))
  }

  /** A yes/no switch that is on unless it is set to something else than "yes". */
  function Switch(s: Section, key: string): bool
  {
    if key in s then s[key] == "yes" else true
  }

  /** The [general] section: duration and bufferSecs are required, bufferSecs
      may not be 0; reconnect and realtime default to on. */
  function ReadGeneral(cfg: Config, num: string -> int): (r: Result<General>)
    ensures r.Success? ==> 0 < r.value.bufferSecs < TwoTo32
  {
    if "general" !in cfg then Failure(NoSection("general"))
    else
      var cs := cfg["general"];
      var duration :- Required(cs, "duration", "general");
      var bufferSecs :- Required(cs, "bufferSecs", "general");
      var secs := UInt(num, bufferSecs);
      if secs == 0 then Failure(ZeroBufferSecs)
      else Success(General(num(duration), secs, Switch(cs, "reconnect"), Switch(cs, "realtime")))
  }

  /** The [input] section: sampleRate, bitsPerSample, channel and device are
      required, in that order. */
  function ReadInput(cfg: Config, num: string -> int): (r: Result<Input>)
    ensures r.Success? <==> "input" in cfg && "sampleRate" in cfg["input"] && "bitsPerSample" in cfg["input"]
                            && "channel" in cfg["input"] && "device" in cfg["input"]
    ensures r.Success? ==> r.value.device == cfg["input"]["device"]
    ensures r.Success? ==> r.value.sampleRate < TwoTo32 && r.value.bitsPerSample < TwoTo32
                           && r.value.channel < TwoTo32
  {
    if "input" !in cfg then Failure(NoSection("input"))
    else
      var cs := cfg["input"];
      var sampleRate :- Required(cs, "sampleRate", "input");
      var bitsPerSample :- Required(cs, "bitsPerSample", "input");
      var channel :- Required(cs, "channel", "input");
      var device :- Required(cs, "device", "input");
      Success(Input(UInt(num, sampleRate), UInt(num, bitsPerSample), UInt(num, channel), device))
  }

  /** The bitrate of a section: 0 when the key is absent. */
  function Bitrate(s: Section, num: string -> int): (n: nat)
    ensures n < TwoTo32
    ensures "bitrate" !in s ==> n == 0
  {
    if "bitrate" in s then UInt(num, s["bitrate"]) else 0
  }

  /** The bitrate-mode check of an output section.  `cbrNeedsQuality` is
      whether constant bitrate also asks for a quality key: it does for IceCast
      and ShoutCast outputs, not for IceCast2 and file outputs. */
  function ReadMode(s: Section, stream: string, num: string -> int, cbrNeedsQuality: bool): (r: Result<Mode>)
    ensures r.Success? ==> (r.value == Abr || r.value == Cbr ==> Bitrate(s, num) != 0)
    ensures r.Success? ==> (r.value == Vbr || (r.value == Cbr && cbrNeedsQuality) ==> "quality" in s)
  {
    var mode :- Required(s, "bitrateMode", stream);
    if mode == "cbr" then
      if Bitrate(s, num) == 0 then Failure(NoBitrate(Cbr))
      else if cbrNeedsQuality && "quality" !in s then Failure(NoQuality(Cbr))
      else Success(Cbr)
    else if mode == "abr" then
      if Bitrate(s, num) == 0 then Failure(NoBitrate(Abr)) else Success(Abr)
    else if mode == "vbr" then
      if "quality" !in s then Failure(NoQuality(Vbr)) else Success(Vbr)
    else Failure(BadMode(mode))
  }

  /** The name a bitrate mode is written with. */
  function ModeName(m: Mode): string
  {
    match m
    case Cbr => "cbr"
    case Abr => "abr"
    case Vbr => "vbr"
  }

  /** The bitrate mode a section asks for is accepted exactly when it is
      written as cbr, abr or vbr and has what that mode needs; the mode
      accepted is the one written. */
  lemma ModeAcceptedIff(s: Section, stream: string, num: string -> int, cbrNeedsQuality: bool)
    ensures var r := ReadMode(s, stream, num, cbrNeedsQuality);
      && (r.Success? <==>
            "bitrateMode" in s &&
            (|| (s["bitrateMode"] == "cbr" && Bitrate(s, num) != 0 && (cbrNeedsQuality ==> "quality" in s))
             || (s["bitrateMode"] == "abr" && Bitrate(s, num) != 0)
             || (s["bitrateMode"] == "vbr" && "quality" in s)))
      && (r.Success? ==> s["bitrateMode"] == ModeName(r.value))
  {
  }

  /** The formats written vorbis, mp3, mp2 and aac. */
  function ParseFormat(name: string): (f: Result<Format>)
    ensures f.Failure? ==> f.error == BadFormat(name)
  {
    if name == "vorbis" then Success(Vorbis)
    else if name == "mp3" then Success(Mp3)
    else if name == "mp2" then Success(Mp2)
    else if name == "aac" then Success(Aac)
    else Failure(BadFormat(name))
  }

  /** The name a format is written with. */
  function FormatName(f: Format): string
  {
    match f
    case Vorbis => "vorbis"
    case Mp3 => "mp3"
    case Mp2 => "mp2"
    case Aac => "aac"
  }

  /** ParseFormat and FormatName are inverse to each other. */
  lemma FormatNames(name: string, f: Format)
    ensures ParseFormat(FormatName(f)) == Success(f)
    ensures ParseFormat(name).Success? ==> FormatName(ParseFormat(name).value) == name
  {
  }

  /** An [icecast-k] section: the bitrate mode (cbr needs a quality key),
      then server, port, password and mountPoint, then the format, which must
      be mp3 or mp2. */
  function CheckIceCast(s: Section, stream: string, num: string -> int): (r: Result<Output>)
    ensures r.Success? <==>
              && ReadMode(s, stream, num, true).Success?
              && "server" in s && "port" in s && "password" in s && "mountPoint" in s
              && "format" in s && (s["format"] == "mp3" || s["format"] == "mp2")
    ensures r.Success? ==>
              && r.value.kind == IceCast && (r.value.format == Mp3 || r.value.format == Mp2)
              && Success(r.value.mode) == ReadMode(s, stream, num, true)
              && s["format"] == FormatName(r.value.format)
  {
    var mode :- ReadMode(s, stream, num, true);
    var _ :- Required(s, "server", stream);
    var _ :- Required(s, "port", stream);
    var _ :- Required(s, "password", stream);
    var _ :- Required(s, "mountPoint", stream);
    var name :- Required(s, "format", stream);
    if name == "mp3" then Success(Output(IceCast, Mp3, mode))
    else if name == "mp2" then Success(Output(IceCast, Mp2, mode))
    else Failure(BadFormat(name))
  }

  /** An [icecast2-k] section: the format first (vorbis, mp3, mp2 or aac),
      then the bitrate mode (cbr needs only a bitrate), then server, port,
      password and mountPoint. */
  function CheckIceCast2(s: Section, stream: string, num: string -> int): (r: Result<Output>)
    ensures r.Success? <==>
              && "format" in s && ParseFormat(s["format"]).Success?
              && ReadMode(s, stream, num, false).Success?
              && "server" in s && "port" in s && "password" in s && "mountPoint" in s
    ensures r.Success? ==>
              && r.value.kind == IceCast2
              && Success(r.value.mode) == ReadMode(s, stream, num, false)
              && Success(r.value.format) == ParseFormat(s["format"])
  {
    var name :- Required(s, "format", stream);
    var format :- ParseFormat(name);
    var mode :- ReadMode(s, stream, num, false);
    var _ :- Required(s, "server", stream);
    var _ :- Required(s, "port", stream);
    var _ :- Required(s, "password", stream);
    var _ :- Required(s, "mountPoint", stream);
    Success(Output(IceCast2, format, mode))
  }

  /** A [shoutcast-k] section: the bitrate mode (cbr needs a quality key),
      then server, port and password; the stream is always mp3. */
  function CheckShoutCast(s: Section, stream: string, num: string -> int): (r: Result<Output>)
    ensures r.Success? <==>
              && ReadMode(s, stream, num, true).Success?
              && "server" in s && "port" in s && "password" in s
    ensures r.Success? ==>
              && r.value.kind == ShoutCast && r.value.format == Mp3
              && Success(r.value.mode) == ReadMode(s, stream, num, true)
  {
    var mode :- ReadMode(s, stream, num, true);
    var _ :- Required(s, "server", stream);
    var _ :- Required(s, "port", stream);
    var _ :- Required(s, "password", stream);
    Success(Output(ShoutCast, Mp3, mode))
  }

  /** A [file-k] section: the format (vorbis, mp3, mp2 or aac), the bitrate
      key, fileName, then the bitrate mode (cbr needs only a bitrate); aac is
      only taken in abr mode. */
  function CheckFileCast(s: Section, stream: string, num: string -> int): (r: Result<Output>)
    ensures r.Success? <==>
              && "format" in s && ParseFormat(s["format"]).Success?
              && "bitrate" in s && "fileName" in s
              && ReadMode(s, stream, num, false).Success?
              && (ParseFormat(s["format"]).value == Aac ==> ReadMode(s, stream, num, false).value == Abr)
    ensures r.Success? ==>
              && r.value.kind == FileCast && (r.value.format == Aac ==> r.value.mode == Abr)
              && Success(r.value.mode) == ReadMode(s, stream, num, false)
              && Success(r.value.format) == ParseFormat(s["format"])
  {
    var name :- Required(s, "format", stream);
    var format :- ParseFormat(name);
    var _ :- Required(s, "bitrate", stream);
    var _ :- Required(s, "fileName", stream);
    var mode :- ReadMode(s, stream, num, false);
    if format == Aac && mode != Abr then Failure(AacNeedsAbr)
    else Success(Output(FileCast, format, mode))
  }

  /** The check for a section of the given output type. */
  function Check(kind: Kind, s: Section, stream: string, num: string -> int): (r: Result<Output>)
    ensures r.Success? ==> r.value.kind == kind
  {
    match kind
    case IceCast => CheckIceCast(s, stream, num)
    case IceCast2 => CheckIceCast2(s, stream, num)
    case ShoutCast => CheckShoutCast(s, stream, num)
    case FileCast => CheckFileCast(s, stream, num)
  }

  /** The section-name prefix of each output type. */
  function Prefix(kind: Kind): string
  {
    match kind
    case IceCast => "icecast-"
    case IceCast2 => "icecast2-"
    case ShoutCast => "shoutcast-"
    case FileCast => "file-"
  }

  /** The name of the k-th section of a pass: the prefix and one character,
      '0' + k, kept to a char's 8 bits. */
  function SectionName(kind: Kind, k: nat): (name: string)
    ensures |name| == |Prefix(kind)| + 1 && name[..|Prefix(kind)|] == Prefix(kind)
  {
    Prefix(kind) + [((48 + k) % 256) as char]
  }

  /** The first ten sections of a pass are named with the decimal digit of
      their index, and sections 0 to 255 all have different names; from 208 on
      the character is no longer a digit, and 256 repeats the name of 0. */
  lemma SectionNames(kind: Kind, k: nat, j: nat)
    ensures k < 10 ==> SectionName(kind, k) == Prefix(kind) + ["0123456789"[k]]
    ensures k < 256 && j < 256 && k != j ==> SectionName(kind, k) != SectionName(kind, j)
    ensures SectionName(kind, k + 256) == SectionName(kind, k)
  {
    if k < 10 {
      DigitName(kind, k);
    }
    if k < 256 && j < 256 && k != j {
      NamesDiffer(kind, k, j);
    }
  }

  lemma DigitName(kind: Kind, k: nat)
    requires k < 10
    ensures SectionName(kind, k) == Prefix(kind) + ["0123456789"[k]]
  {
    assert "0123456789"[k] == (48 + k) as char;
  }

  lemma NamesDiffer(kind: Kind, k: nat, j: nat)
    requires k < 256 && j < 256 && k != j
    ensures SectionName(kind, k) != SectionName(kind, j)
  {
    var a, b := SectionName(kind, k), SectionName(kind, j);
    assert a[|Prefix(kind)|] != b[|Prefix(kind)|];
  }

  /** What [general] accepts and what it makes of reconnect and realtime:
      reading fails exactly when the section, duration or bufferSecs is
      missing or bufferSecs reads as 0, and each switch is on when its key is
      absent and otherwise exactly when the value is "yes". */
  lemma GeneralDecisions(cfg: Config, num: string -> int)
    ensures var r := ReadGeneral(cfg, num);
      && (r.Success? <==> "general" in cfg && "duration" in cfg["general"]
                          && "bufferSecs" in cfg["general"]
                          && UInt(num, cfg["general"]["bufferSecs"]) != 0)
      && (r.Success? ==>
            var cs := cfg["general"];
            && r.value.bufferSecs > 0
            && (r.value.reconnect <==> "reconnect" !in cs || cs["reconnect"] == "yes")
            && (r.value.realTime <==> "realtime" !in cs || cs["realtime"] == "yes"))
  {
  }

  /** bufferSecs is read into an unsigned int: a value of 2^32 wraps to 0 and
      is refused like 0 itself. */
  lemma BufferSecsWraps(num: string -> int)
    requires num("4294967296") == 4294967296
    ensures var cfg := map["general" := map["duration" := "0", "bufferSecs" := "4294967296"]];
      ReadGeneral(cfg, num) == Failure(ZeroBufferSecs)
  {
    var cs := map["duration" := "0", "bufferSecs" := "4294967296"];
    assert "duration" in cs && "bufferSecs" in cs;
  }

  /** The checks run in the order of the code, so the first complaint wins.
      IceCast and ShoutCast read the bitrate mode first: any mode other than
      cbr, abr and vbr is reported whatever else the section lacks.  IceCast2
      and file outputs read the format first: any format name other than
      vorbis, mp3, mp2 and aac is reported whatever else the section lacks. */
  lemma CheckOrder(s: Section, stream: string, num: string -> int)
    ensures "bitrateMode" in s && s["bitrateMode"] !in {"cbr", "abr", "vbr"} ==>
              && CheckIceCast(s, stream, num) == Failure(BadMode(s["bitrateMode"]))
              && CheckShoutCast(s, stream, num) == Failure(BadMode(s["bitrateMode"]))
    ensures "format" in s && ParseFormat(s["format"]).Failure? ==>
              && CheckIceCast2(s, stream, num) == Failure(BadFormat(s["format"]))
              && CheckFileCast(s, stream, num) == Failure(BadFormat(s["format"]))
  {
  }

  /** Constant bitrate asks for a quality key of IceCast and ShoutCast outputs
      only: a cbr section with a bitrate and no quality key, and otherwise
      complete, is refused as an IceCast or ShoutCast output and accepted as
      an IceCast2 or file output. */
  lemma CbrQualityPerKind(s: Section, stream: string, num: string -> int)
    requires "bitrateMode" in s && s["bitrateMode"] == "cbr" && Bitrate(s, num) != 0 && "quality" !in s
    ensures CheckIceCast(s, stream, num) == Failure(NoQuality(Cbr))
    ensures CheckShoutCast(s, stream, num) == Failure(NoQuality(Cbr))
    ensures "format" in s && ParseFormat(s["format"]).Success? && ParseFormat(s["format"]).value != Aac
            && "server" in s && "port" in s && "password" in s && "mountPoint" in s ==>
              CheckIceCast2(s, stream, num) == Success(Output(IceCast2, ParseFormat(s["format"]).value, Cbr))
    ensures "format" in s && ParseFormat(s["format"]).Success? && ParseFormat(s["format"]).value != Aac
            && "fileName" in s ==>
              CheckFileCast(s, stream, num) == Success(Output(FileCast, ParseFormat(s["format"]).value, Cbr))
  {
  }

  /** The formats each output type takes, given a section whose mode and
      required keys are fine: IceCast only mp3 and mp2, IceCast2 all four, and
      a file output all four, aac only in abr mode. */
  lemma FormatAcceptance(s: Section, stream: string, num: string -> int, f: Format)
    requires ReadMode(s, stream, num, true).Success?
    requires "server" in s && "port" in s && "password" in s && "mountPoint" in s
    requires "format" in s && s["format"] == FormatName(f)
    ensures CheckIceCast(s, stream, num).Success? <==> f == Mp3 || f == Mp2
    ensures CheckIceCast2(s, stream, num).Success?
    ensures "fileName" in s && "bitrate" in s ==>
              (CheckFileCast(s, stream, num).Success? <==> f != Aac || s["bitrateMode"] == "abr")
  {
    ModeAcceptedIff(s, stream, num, true);
    ModeAcceptedIff(s, stream, num, false);
    FormatNames(s["format"], f);
  }
}
