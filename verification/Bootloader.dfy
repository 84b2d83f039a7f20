/** The host side of the CAN bootloader protocol (tools/flash.py), run against an
    arbitrary bus: answers may be missing, late, foreign, malformed or error-coded, and
    any send or receive may raise. */
module Bootloader {
  import opened Wrappers

  type Byte = b: int | 0 <= b < 256

  datatype Frame = Frame(id: int, data: seq<Byte>)

  /** One frame sent, with everything heard before the next one was sent. */
  datatype Exchange = Exchange(frame: Frame, heard: seq<Frame>)

  // ---------------------------------------------------------------- frames

  const BOOT_RX := 0x21
  const BOOT_TX := 0x22
  const APP_RX := 0x31
  const APP_TX := 0x32

  const PING: Byte := 0x01
  const JUMP: Byte := 0x02
  const ERASE: Byte := 0x10
  const WRITE: Byte := 0x20
  const FINISH: Byte := 0x21
  const SET_SIZE: Byte := 0x30
  const SET_CRC: Byte := 0x31
  const SET_VERSION: Byte := 0x32
  const GET_INFO: Byte := 0x40
  const ENTER: Byte := 0x01

  const LIMIT32 := 0x1_0000_0000

  function Simple(cmd: Byte): Frame {
    Frame(BOOT_RX, [cmd, 0, 0, 0, 0, 0, 0, 0])
  }

  const ENTER_FRAME := Frame(APP_RX, [ENTER, 0, 0, 0, 0, 0, 0, 0])

  function Low(value: int): Byte { value % 256 }

  function LittleEndian(value: int): (bytes: seq<Byte>)
    requires 0 <= value < LIMIT32
    ensures |bytes| == 4
  {
    [Low(value), Low(value / 256), Low(value / 65536), Low(value / 16777216)]
  }

  lemma LittleEndianRoundTrip(value: int)
    requires 0 <= value < LIMIT32
    ensures FromLittleEndian(LittleEndian(value)) == value
  {
    var b := LittleEndian(value);
    assert b[1..][1..] == b[2..] && b[2..][1..] == b[3..] && b[3..] == [b[3]];
    assert FromLittleEndian(b[3..]) == b[3];
    assert FromLittleEndian(b[2..]) == value / 65536;
    assert FromLittleEndian(b[1..]) == value / 256;
  }

  function FromLittleEndian(bytes: seq<Byte>): nat {
    if bytes == [] then 0 else bytes[0] + 256 * FromLittleEndian(bytes[1..])
  }

  predicate Fits(value: int) { 0 <= value < LIMIT32 }

  function Setting(cmd: Byte, value: int): Frame
    requires Fits(value)
  {
    Frame(BOOT_RX, [cmd] + LittleEndian(value) + [0, 0, 0])
  }

  /** The frames by their bytes: requests go to 0x21, the wake-up to 0x31. */
  lemma FramesByBytes()
    ensures Simple(PING) == Frame(0x21, [0x01, 0, 0, 0, 0, 0, 0, 0])
    ensures Simple(JUMP) == Frame(0x21, [0x02, 0, 0, 0, 0, 0, 0, 0])
    ensures Simple(ERASE) == Frame(0x21, [0x10, 0, 0, 0, 0, 0, 0, 0])
    ensures Simple(FINISH) == Frame(0x21, [0x21, 0, 0, 0, 0, 0, 0, 0])
    ensures Simple(GET_INFO) == Frame(0x21, [0x40, 0, 0, 0, 0, 0, 0, 0])
    ensures ENTER_FRAME == Frame(0x31, [0x01, 0, 0, 0, 0, 0, 0, 0])
    ensures WRITE == 0x20 && SET_SIZE == 0x30 && SET_CRC == 0x31 && SET_VERSION == 0x32
  {
  }

  /** The command byte, the value in four bytes, and three zeros. */
  lemma SettingCarries(cmd: Byte, value: int)
    requires Fits(value)
    ensures var f := Setting(cmd, value);
            f.id == BOOT_RX && |f.data| == 8 && f.data[0] == cmd && FromLittleEndian(f.data[1..5]) == value
  {
    LittleEndianRoundTrip(value);
    assert Setting(cmd, value).data[1..5] == LittleEndian(value);
  }

  lemma Regroup<T>(a: seq<T>, b: seq<T>, c: seq<T>)
    ensures a + (b + c) == a + b + c
  {}

  // ---------------------------------------------------------------- answers

  predicate Answers(cmd: Byte, f: Frame) {
    f.id == BOOT_TX && |f.data| >= 2 && f.data[0] == cmd
  }

  /** The first frame heard that answers `cmd`. */
  function Answer(cmd: Byte, heard: seq<Frame>): (a: Option<Frame>)
    ensures a.Some? ==> Answers(cmd, a.value)
  {
    if heard == [] then None
    else if Answers(cmd, heard[0]) then Some(heard[0])
    else Answer(cmd, heard[1..])
  }

  lemma {:induction false} AnswerSplit(cmd: Byte, a: seq<Frame>, b: seq<Frame>)
    ensures Answer(cmd, a + b) == if Answer(cmd, a).Some? then Answer(cmd, a) else Answer(cmd, b)
  {
    if a == [] {
      assert a + b == b;
    } else {
      assert (a + b)[1..] == a[1..] + b;
      AnswerSplit(cmd, a[1..], b);
    }
  }

  /** Frames that answer something else, or nothing, change no verdict wherever they fall. */
  lemma ForeignFramesIgnored(cmd: Byte, before: seq<Frame>, noise: seq<Frame>, after: seq<Frame>)
    requires forall f | f in noise :: !Answers(cmd, f)
    ensures Answer(cmd, before + noise + after) == Answer(cmd, before + after)
  {
    assert Answer(cmd, noise).None? by { NoAnswerInNoise(cmd, noise); }
    AnswerSplit(cmd, before + noise, after);
    AnswerSplit(cmd, before, noise);
    AnswerSplit(cmd, before, after);
  }

  /** A frame from any other id than 0x22, too short, or for another command, decides nothing. */
  lemma OnlyTheBootloaderAnswers(cmd: Byte, before: seq<Frame>, f: Frame, after: seq<Frame>)
    requires f.id != 0x22 || |f.data| < 2 || f.data[0] != cmd
    ensures Answer(cmd, before + [f] + after) == Answer(cmd, before + after)
  {
    ForeignFramesIgnored(cmd, before, [f], after);
  }

  /** And the first frame from 0x22 with that command's number and a second byte decides. */
  lemma TheBootloaderAnswers(cmd: Byte, before: seq<Frame>, f: Frame, after: seq<Frame>)
    requires f.id == 0x22 && |f.data| >= 2 && f.data[0] == cmd
    requires forall g | g in before :: g.id != 0x22 || |g.data| < 2 || g.data[0] != cmd
    ensures Answer(cmd, before + [f] + after) == Some(f)
  {
    NoAnswerInNoise(cmd, before);
    AnswerSplit(cmd, before + [f], after);
    AnswerSplit(cmd, before, [f]);
  }

  lemma {:induction false} NoAnswerInNoise(cmd: Byte, noise: seq<Frame>)
    ensures Answer(cmd, noise).None? <==> forall f | f in noise :: !Answers(cmd, f)
  {
    if noise != [] {
      NoAnswerInNoise(cmd, noise[1..]);
      assert forall f :: f in noise <==> f == noise[0] || f in noise[1..];
    }
  }

  /** What the exchange's own command was answered with. */
  function Reply(e: Exchange): Option<Frame> {
    if e.frame.data == [] then None else Answer(e.frame.data[0], e.heard)
  }

  predicate Answered(e: Exchange) { Reply(e).Some? }

  /** Acknowledged with status 0. */
  predicate Acked(e: Exchange) { Reply(e).Some? && Reply(e).value.data[1] == 0 }

  datatype Info = Info(status: Option<Byte>, size: nat, version: nat)

  function InfoOf(e: Exchange): (info: Info)
    // status in the second byte, size in the next four, version in the last two, low bytes first
    ensures Reply(e).None? ==> info == Info(None, 0, 0)
    ensures Reply(e).Some? ==>
              var data := Reply(e).value.data; var n := |data|;
              && info.status == Some(data[1])
              && info.size == (if data[1] == 0 && n >= 6 then LowFirst(data[2], data[3], data[4], data[5]) else 0)
              && info.version == (if data[1] == 0 && n >= 8 then LowFirst(data[6], data[7], 0, 0) else 0)
  {
    match Reply(e)
    case None => Info(None, 0, 0)
    case Some(f) =>
      var status := f.data[1];
      if status == 0 && |f.data| >= 6 then
        FourBytes(f.data[2..6]);
        Info(Some(status), FromLittleEndian(f.data[2..6]),
             if |f.data| >= 8 then TwoBytes(f.data[6..8]); FromLittleEndian(f.data[6..8]) else 0)
      else Info(Some(status), 0, 0)
  }

  function LowFirst(a: int, b: int, c: int, d: int): int {
    a + 0x100 * b + 0x1_0000 * c + 0x100_0000 * d
  }

  lemma TwoBytes(b: seq<Byte>)
    requires |b| == 2
    ensures FromLittleEndian(b) == LowFirst(b[0], b[1], 0, 0)
  {
    assert b[1..] == [b[1]] && b[1..][1..] == [];
    assert FromLittleEndian(b[1..]) == b[1];
  }

  lemma FourBytes(b: seq<Byte>)
    requires |b| == 4
    ensures FromLittleEndian(b) == LowFirst(b[0], b[1], b[2], b[3])
  {
    assert b[1..][1..] == b[2..] && b[2..] == [b[2], b[3]];
    TwoBytes(b[2..]);
  }

  /** The answer that describes an application. */
  function Description(size: nat, version: nat): Frame
    requires size < 0x1_0000_0000 && version < 0x1_0000
  {
    Frame(0x22, [0x40, 0x00] + LittleEndian(size) + [Low(version), Low(version / 256)])
  }

  /** What an application's description is encoded as, it is read as. */
  lemma InfoRoundTrip(e: Exchange, size: nat, version: nat, before: seq<Frame>, after: seq<Frame>)
    requires e.frame == Simple(GET_INFO) && size < 0x1_0000_0000 && version < 0x1_0000
    requires forall f | f in before :: f.id != 0x22 || |f.data| < 2 || f.data[0] != 0x40
    requires e.heard == before + [Description(size, version)] + after
    ensures InfoOf(e) == Info(Some(0), size, version)
  {
    DescriptionBytes(size, version);
    hide LittleEndian, Description, LowFirst, Answer;
    TheBootloaderAnswers(GET_INFO, before, Description(size, version), after);
    assert Reply(e) == Some(Description(size, version));
  }

  lemma DescriptionBytes(size: nat, version: nat)
    requires size < 0x1_0000_0000 && version < 0x1_0000
    ensures var f := Description(size, version);
            && f.id == 0x22 && |f.data| == 8 && f.data[0] == 0x40 && f.data[1] == 0
            && LowFirst(f.data[2], f.data[3], f.data[4], f.data[5]) == size
            && LowFirst(f.data[6], f.data[7], 0, 0) == version
  {
    SizeBytes(size);
    VersionBytes(version);
    hide LittleEndian, LowFirst, Low;
  }

  lemma SizeBytes(size: nat)
    requires size < 0x1_0000_0000
    ensures var b := LittleEndian(size); LowFirst(b[0], b[1], b[2], b[3]) == size
  {
    hide LittleEndian, FromLittleEndian, LowFirst;
    LittleEndianRoundTrip(size);
    FourBytes(LittleEndian(size));
  }

  lemma VersionBytes(version: nat)
    requires version < 0x1_0000
    ensures LowFirst(Low(version), Low(version / 256), 0, 0) == version
  {
  }

  // ---------------------------------------------------------------- the plan

  function Chunk(image: seq<Byte>): (c: seq<Byte>)
    requires image != []
    ensures |c| == 7
  {
    if |image| >= 7 then image[..7] else image + Filler(7 - |image|)
  }

  function Filler(n: nat): (pad: seq<Byte>)
    ensures |pad| == n && forall i | 0 <= i < n :: pad[i] == 0xFF
  {
    seq(n, _ => 0xFF)
  }

  function Rest(image: seq<Byte>): seq<Byte> {
    if |image| >= 7 then image[7..] else []
  }

  function WriteFrame(image: seq<Byte>): Frame
    requires image != []
  {
    Frame(BOOT_RX, [WRITE] + Chunk(image))
  }

  function WriteFrames(image: seq<Byte>): seq<Frame>
    decreases |image|
  {
    if image == [] then [] else [WriteFrame(image)] + WriteFrames(Rest(image))
  }

  function Settings(items: seq<(Byte, int)>): seq<Frame> {
    if items == [] || !Fits(items[0].1) then []
    else [Setting(items[0].0, items[0].1)] + Settings(items[1..])
  }

  function Metadata(image: seq<Byte>, crc: int, version: int): seq<(Byte, int)> {
    [(SET_SIZE, |image|), (SET_CRC, crc % LIMIT32), (SET_VERSION, version)]
  }

  predicate Encodable(items: seq<(Byte, int)>) {
    forall k | 0 <= k < |items| :: Fits(items[k].1)
  }

  /** Everything up to the jump; it stops where a setting does not fit its four bytes. */
  function Plan(image: seq<Byte>, crc: int, version: int): seq<Frame> {
    var items := Metadata(image, crc, version);
    [Simple(ERASE)] + Settings(items) +
    if Fits(|image|) && Fits(version) then WriteFrames(image) + [Simple(FINISH)] + [Simple(GET_INFO)] else []
  }

  // ---------------------------------------------------------------- what a run may look like

  predicate Follows(run: seq<Exchange>, plan: seq<Frame>) {
    && |run| <= |plan|
    && (forall k | 0 <= k < |run| :: run[k].frame == plan[k])
    && (forall k | 0 <= k < |run| - 1 :: Acked(run[k]))
  }

  /** `run` carries out `plan` in order, going on only after an acknowledgement of 0. */
  predicate Ran(run: seq<Exchange>, plan: seq<Frame>, r: Outcome<bool>) {
    && Follows(run, plan)
    && match r
       case Ok(true) => |run| == |plan| && forall k | 0 <= k < |run| :: Acked(run[k])
       case Ok(false) => run != [] && !Acked(run[|run| - 1])
       case Raised => true
  }

  lemma RanNothing()
    ensures Ran([], [], Ok(true))
  {}

  lemma RanThen(run1: seq<Exchange>, plan1: seq<Frame>, run2: seq<Exchange>, plan2: seq<Frame>, r: Outcome<bool>)
    requires Ran(run1, plan1, Ok(true)) && Ran(run2, plan2, r)
    ensures Ran(run1 + run2, plan1 + plan2, r)
  {}

  lemma RanShort(run: seq<Exchange>, plan1: seq<Frame>, plan2: seq<Frame>, r: Outcome<bool>)
    requires Ran(run, plan1, r) && r != Ok(true)
    ensures Ran(run, plan1 + plan2, r)
  {}

  /** Looking for the bootloader: a ping, and if nothing answers, the request to the
      application followed by pings until one is answered. */
  predicate Greeted(g: seq<Exchange>, r: Outcome<bool>) {
    && g != []
    && g[0].frame == Simple(PING)
    && (Answered(g[0]) ==> |g| == 1)
    && (|g| > 1 ==> g[1].frame == ENTER_FRAME)
    && (forall k | 2 <= k < |g| :: g[k].frame == Simple(PING))
    && (forall k | 2 <= k < |g| - 1 :: !Answered(g[k]))
    && match r
       case Ok(true) => |g| != 2 && Answered(g[|g| - 1])
       case Ok(false) => |g| >= 2 && (|g| > 2 ==> !Answered(g[|g| - 1]))
       case Raised => true
  }

  predicate SameVersion(e: Exchange, version: int) {
    var info := InfoOf(e);
    info.status == Some(0) && info.version != 0 && info.version == version
  }

  /** The version inquiry: `r` says whether to leave the installed application alone. */
  predicate Inquired(q: seq<Exchange>, force: bool, version: int, r: Outcome<bool>) {
    if force then q == [] && r == Ok(false)
    else |q| == 1 && q[0].frame == Simple(GET_INFO)
         && (r.Ok? ==> r.value == SameVersion(q[0], version))
  }

  predicate Jumped(j: seq<Exchange>, r: Outcome<bool>) {
    && |j| == 1 && j[0].frame == Simple(JUMP)
    && (r.Ok? ==> r.value == (!Answered(j[0]) || Acked(j[0])))
  }

  datatype Stages = Stages(greet: seq<Exchange>, inquire: seq<Exchange>, program: seq<Exchange>, jump: seq<Exchange>) {
    function All(): seq<Exchange> { greet + inquire + program + jump }
  }

  datatype Job = Job(image: seq<Byte>, crc: int, version: int, force: bool) {
    function Frames(): seq<Frame> { Plan(image, crc, version) }
    predicate Encoded() { Fits(|image|) && Fits(version) }
  }

  /** How far a run got, and with what verdict. */
  predicate Session(s: Stages, job: Job, r: Outcome<bool>) {
    || (r != Ok(true) && Greeted(s.greet, r) && s.inquire == s.program == s.jump == [])
    || (Greeted(s.greet, Ok(true)) && s.program == s.jump == []
        && r != Ok(false) && Inquired(s.inquire, job.force, job.version, r))
    || (Greeted(s.greet, Ok(true)) && Inquired(s.inquire, job.force, job.version, Ok(false)) && s.jump == []
        && r != Ok(true) && Ran(s.program, job.Frames(), r))
    || (Greeted(s.greet, Ok(true)) && Inquired(s.inquire, job.force, job.version, Ok(false))
        && job.Encoded() && Ran(s.program, job.Frames(), Ok(true)) && Jumped(s.jump, r))
  }

  // ---------------------------------------------------------------- the host program

  /** The log once more frames were heard after the last send. */
  function Hear(log: seq<Exchange>, heard: seq<Frame>): seq<Exchange>
    requires log != []
  {
    var last := log[|log| - 1];
    log[..|log| - 1] + [Exchange(last.frame, last.heard + heard)]
  }

  lemma HearNothing(log: seq<Exchange>)
    requires log != []
    ensures Hear(log, []) == log
  {
    assert log[|log| - 1].heard + [] == log[|log| - 1].heard;
  }

  lemma HearFirst(log: seq<Exchange>, frame: Frame, heard: seq<Frame>)
    ensures Hear(log + [Exchange(frame, [])], heard) == log + [Exchange(frame, heard)]
  {
    assert [] + heard == heard;
    assert (log + [Exchange(frame, [])])[..|log|] == log;
  }

  lemma HearMore(log: seq<Exchange>, a: seq<Frame>, b: seq<Frame>)
    requires log != []
    ensures Hear(log, a + b) == Hear(Hear(log, a), b)
  {
    assert log[|log| - 1].heard + (a + b) == log[|log| - 1].heard + a + b;
  }

  function From(image: seq<Byte>, offset: nat): seq<Byte> {
    if offset < |image| then image[offset..] else []
  }

  lemma FromEnds(image: seq<Byte>, offset: nat)
    ensures From(image, 0) == image
    ensures offset >= |image| ==> WriteFrames(From(image, offset)) == []
  {}

  /** The loop body's slice of the image, padded to seven bytes. */
  method CutFrame(image: seq<Byte>, offset: nat) returns (frame: Frame)
    requires offset < |image|
    ensures |frame.data| == 8
    ensures WriteFrames(From(image, offset)) == [frame] + WriteFrames(From(image, offset + 7))
  {
    var chunk := image[offset..if offset + 7 <= |image| then offset + 7 else |image|];
    if |chunk| < 7 { chunk := chunk + Filler(7 - |chunk|); }
    assert chunk == Chunk(From(image, offset));
    assert Rest(From(image, offset)) == From(image, offset + 7);
    frame := Frame(BOOT_RX, [WRITE] + chunk);
  }

  lemma GreetedMore(g: seq<Exchange>, e: Exchange, r: Outcome<bool>)
    requires Greeted(g, Ok(false)) && e.frame == Simple(PING) && (r.Ok? ==> r.value == Answered(e))
    ensures Greeted(g + [e], r)
  {
    hide Answered, Simple;
  }

  lemma RanRaised(run: seq<Exchange>, plan: seq<Frame>)
    requires Ran(run, plan, Ok(true))
    ensures forall more :: Ran(run, plan + more, Raised)
  {}

  lemma RanInfo(e: Exchange, r: Outcome<bool>)
    requires e.frame == Simple(GET_INFO) && (r.Ok? ==> r.value == (InfoOf(e).status == Some(0)))
    ensures Ran([e], [Simple(GET_INFO)], r)
  {}

  /** The plan up to its `stage`-th step. */
  function Upto(job: Job, stage: nat): seq<Frame> {
    [Simple(ERASE)]
    + (if stage >= 2 then Settings(Metadata(job.image, job.crc, job.version)) else [])
    + (if stage >= 3 then WriteFrames(job.image) else [])
    + (if stage >= 4 then [Simple(FINISH)] else [])
  }

  lemma EncodableWhen(job: Job)
    ensures Encodable(Metadata(job.image, job.crc, job.version)) <==> job.Encoded()
  {
    var items := Metadata(job.image, job.crc, job.version);
    assert items[0].1 == |job.image| && items[2].1 == job.version;
  }

  lemma PlanParts(job: Job)
    ensures job.Encoded() ==> job.Frames() == Upto(job, 4) + [Simple(GET_INFO)]
  {
    hide Settings, WriteFrames, Encodable, Metadata, Simple;
  }

  lemma PlanShort(job: Job, run: seq<Exchange>, stage: nat, r: Outcome<bool>)
    requires stage >= 3 ==> job.Encoded()
    requires Ran(run, Upto(job, stage), r) && r != Ok(true)
    ensures Ran(run, job.Frames(), r)
  {
    hide Ran, Settings, WriteFrames, Encodable, Metadata, Simple;
    var tail :=
      (if stage < 2 then Settings(Metadata(job.image, job.crc, job.version)) else [])
      + if !job.Encoded() then [] else
          (if stage < 3 then WriteFrames(job.image) else [])
          + (if stage < 4 then [Simple(FINISH)] else []) + [Simple(GET_INFO)];
    assert job.Frames() == Upto(job, stage) + tail;
    RanShort(run, Upto(job, stage), tail, r);
  }

  datatype Reception = Quiet | Heard(frame: Frame) | Broken

  /** A SocketCAN bus and the clock beside it. What they will do is fixed but arbitrary:
      `clock` answers each deadline test, `inbox` each receive, `sends` each send. */
  class Bus {
    var clock: seq<bool>
    var inbox: seq<Reception>
    var sends: seq<bool>
    var log: seq<Exchange>
    var open: bool
    var broken: bool

    constructor (clock: seq<bool>, inbox: seq<Reception>, sends: seq<bool>)
      ensures log == [] && !open && !broken
      ensures this.clock == clock && this.inbox == inbox && this.sends == sends
    {
      this.clock, this.inbox, this.sends := clock, inbox, sends;
      log, open, broken := [], false, false;
    }

    /** `time.monotonic() < deadline`; every deadline passes in the end. */
    method InTime() returns (b: bool)
      modifies this`clock
      ensures |clock| <= |old(clock)|
      ensures b ==> |clock| < |old(clock)|
    {
      b := clock != [] && clock[0];
      if clock != [] { clock := clock[1..]; }
    }

    method Send(frame: Frame) returns (r: Outcome<()>)
      modifies this`sends, this`log, this`broken
      ensures log == old(log) + [Exchange(frame, [])]
      ensures broken == (old(broken) || r.Raised?)
    {
      log := log + [Exchange(frame, [])];
      r := Ok(());
      if sends != [] {
        if !sends[0] { r, broken := Raised, true; }
        sends := sends[1..];
      }
    }

    method Recv() returns (r: Outcome<Option<Frame>>)
      requires log != []
      modifies this`inbox, this`log, this`broken
      ensures log == if r.Ok? && r.value.Some? then Hear(old(log), [r.value.value]) else old(log)
      ensures broken == (old(broken) || r.Raised?)
    {
      r := Ok(None);
      if inbox != [] {
        match inbox[0]
        case Quiet =>
        case Broken => r, broken := Raised, true;
        case Heard(f) =>
          r := Ok(Some(f));
          log := Hear(log, [f]);
        inbox := inbox[1..];
      }
    }

    /** The receive loop of `_wait_ack` and `bl_get_info`: the first answer to `cmd` heard
        before the deadline or the first empty receive. */
    method WaitAck(cmd: Byte) returns (r: Outcome<Option<Frame>>, ghost heard: seq<Frame>)
      requires log != []
      modifies this`clock, this`inbox, this`log, this`broken
      ensures |clock| <= |old(clock)|
      ensures log == Hear(old(log), heard)
      ensures r.Ok? ==> r.value == Answer(cmd, heard)
      ensures broken == (old(broken) || r.Raised?)
    {
      r, heard := Ok(None), [];
      HearNothing(log);
      var more := InTime();
      while more
        invariant |clock| <= |old(clock)|
        invariant log == Hear(old(log), heard)
        invariant Answer(cmd, heard) == None
        invariant r == Ok(None) && broken == old(broken)
        decreases |clock|, more
      {
        var got :- Recv();
        if got.None? { break; }
        AnswerSplit(cmd, heard, [got.value]);
        HearMore(old(log), heard, [got.value]);
        heard := heard + [got.value];
        if got.value.id == BOOT_TX && |got.value.data| >= 2 && got.value.data[0] == cmd {
          return Ok(got), heard;
        }
        more := InTime();
      }
    }

    /** Send one frame and wait for its answer. */
    method Transact(frame: Frame) returns (r: Outcome<Option<Frame>>, ghost e: Exchange)
      requires frame.data != []
      modifies this`clock, this`inbox, this`sends, this`log, this`broken
      ensures |clock| <= |old(clock)|
      ensures log == old(log) + [e] && e.frame == frame
      ensures r.Ok? ==> r.value == Reply(e)
      ensures broken == (old(broken) || r.Raised?)
    {
      e := Exchange(frame, []);
      var _ :- Send(frame);
      ghost var heard;
      r, heard := WaitAck(frame.data[0]);
      e := Exchange(frame, heard);
      HearFirst(old(log), frame, heard);
    }

    /** One command that must be acknowledged with 0. */
    method Command(frame: Frame) returns (r: Outcome<bool>, ghost run: seq<Exchange>)
      requires frame.data != []
      modifies this`clock, this`inbox, this`sends, this`log, this`broken
      ensures log == old(log) + run
      ensures Ran(run, [frame], r)
      ensures r.Raised? ==> broken
    {
      var reply, e := Transact(frame);
      run := [e];
      if reply.Raised? { return Raised, run; }
      r := Ok(reply.value.Some? && reply.value.value.data[1] == 0);
    }

    method Ping() returns (r: Outcome<bool>, ghost e: Exchange)
      modifies this`clock, this`inbox, this`sends, this`log, this`broken
      ensures |clock| <= |old(clock)|
      ensures log == old(log) + [e] && e.frame == Simple(PING)
      ensures r.Ok? ==> r.value == Answered(e)
      ensures r.Raised? ==> broken
    {
      var reply;
      reply, e :- Transact(Simple(PING));
      r := Ok(reply.Some?);
    }

    method GetInfo() returns (r: Outcome<Info>, ghost e: Exchange)
      modifies this`clock, this`inbox, this`sends, this`log, this`broken
      ensures log == old(log) + [e] && e.frame == Simple(GET_INFO)
      ensures r.Ok? ==> r.value == InfoOf(e)
      ensures r.Ok? && Reply(e).Some? && Reply(e).value.data[1] == 0 && |Reply(e).value.data| >= 8 ==>
                r.value.version == Reply(e).value.data[6] + 0x100 * (Reply(e).value.data[7] as int)
      ensures r.Raised? ==> broken
    {
      var reply;
      reply, e :- Transact(Simple(GET_INFO));
      if reply.None? { return Ok(Info(None, 0, 0)), e; }
      var data := reply.value.data;
      var status, size, version := data[1], 0, 0;
      if status == 0 && |data| >= 6 {
        size := FromLittleEndian(data[2..6]);
        if |data| >= 8 { version := FromLittleEndian(data[6..8]); }
      }
      r := Ok(Info(Some(status), size, version));
    }

    method SetMetadata(image: seq<Byte>, crc: int, version: int) returns (r: Outcome<bool>, ghost run: seq<Exchange>)
      modifies this`clock, this`inbox, this`sends, this`log, this`broken
      ensures log == old(log) + run
      ensures Ran(run, Settings(Metadata(image, crc, version)), r)
      ensures r == Ok(true) ==> Encodable(Metadata(image, crc, version))
      ensures r.Raised? ==> broken || !Encodable(Metadata(image, crc, version))
    {
      hide Ran, Setting, Metadata, WriteFrames, LittleEndian;
      var items := Metadata(image, crc, version);
      var i := 0;
      ghost var plan: seq<Frame> := [];
      run := [];
      RanNothing();
      while i < |items|
        invariant 0 <= i <= |items|
        invariant log == old(log) + run
        invariant Ran(run, plan, Ok(true))
        invariant Settings(items) == plan + Settings(items[i..])
        invariant forall k | 0 <= k < i :: Fits(items[k].1)
      {
        var cmd, value := items[i].0, items[i].1;
        assert items[i..][1..] == items[i + 1..];
        if !Fits(value) {
          RanRaised(run, plan);
          return Raised, run;
        }
        var frame := Setting(cmd, value);
        SettingCarries(cmd, value);
        ghost var rest := Settings(items[i + 1..]);
        var ok, step := Command(frame);
        RanThen(run, plan, step, [frame], ok);
        Regroup(plan, [frame], rest);
        Regroup(old(log), run, step);
        run, plan := run + step, plan + [frame];
        if ok != Ok(true) {
          RanShort(run, plan, rest, ok);
          return ok, run;
        }
        i := i + 1;
      }
      assert items[i..] == [] && plan + [] == plan;
      r := Ok(true);
    }

    method WriteData(image: seq<Byte>) returns (r: Outcome<bool>, ghost run: seq<Exchange>)
      modifies this`clock, this`inbox, this`sends, this`log, this`broken
      ensures log == old(log) + run
      ensures Ran(run, WriteFrames(image), r)
      ensures r.Raised? ==> broken
    {
      hide Ran, WriteFrames, Filler, From, Settings;
      var offset := 0;
      ghost var plan: seq<Frame> := [];
      run := [];
      RanNothing();
      FromEnds(image, 0);
      while offset < |image|
        invariant 0 <= offset
        invariant log == old(log) + run
        invariant Ran(run, plan, Ok(true))
        invariant WriteFrames(image) == plan + WriteFrames(From(image, offset))
      {
        var frame := CutFrame(image, offset);
        ghost var rest := WriteFrames(From(image, offset + 7));
        var ok, step := Command(frame);
        RanThen(run, plan, step, [frame], ok);
        Regroup(plan, [frame], rest);
        Regroup(old(log), run, step);
        run, plan := run + step, plan + [frame];
        if ok != Ok(true) {
          RanShort(run, plan, rest, ok);
          return ok, run;
        }
        offset := offset + 7;
      }
      FromEnds(image, offset);
      assert plan + [] == plan;
      r := Ok(true);
    }

    /** The board may reset before it answers, so silence is not a failure here. */
    method Jump() returns (r: Outcome<bool>, ghost run: seq<Exchange>)
      modifies this`clock, this`inbox, this`sends, this`log, this`broken
      ensures log == old(log) + run
      ensures Jumped(run, r)
      ensures r.Raised? ==> broken
    {
      var reply, e := Transact(Simple(JUMP));
      run := [e];
      if reply.Raised? { return Raised, run; }
      if reply.value.None? { return Ok(true), run; }
      r := Ok(reply.value.value.data[1] == 0);
    }

    method AwaitApplication() returns (r: Outcome<()>, ghost heard: seq<Frame>)
      requires log != []
      modifies this`clock, this`inbox, this`log, this`broken
      ensures log == Hear(old(log), heard)
      ensures r.Raised? ==> broken
    {
      r, heard := Ok(()), [];
      HearNothing(log);
      var more := InTime();
      while more
        invariant log == Hear(old(log), heard)
        invariant r == Ok(())
        decreases |clock|, more
      {
        var got :- Recv();
        if got.None? { break; }
        HearMore(old(log), heard, [got.value]);
        heard := heard + [got.value];
        var f := got.value;
        if f.id == APP_TX && |f.data| >= 2 && f.data[0] == ENTER { break; }
        more := InTime();
      }
    }

    /** Ask the application to reboot, then ping until the bootloader answers. */
    method RemoteEnter(ghost ping: Exchange) returns (r: Outcome<bool>, ghost run: seq<Exchange>)
      requires ping.frame == Simple(PING) && !Answered(ping)
      modifies this`clock, this`inbox, this`sends, this`log, this`broken
      ensures log == old(log) + run
      ensures Greeted([ping] + run, r)
      ensures r.Raised? ==> broken
    {
      run := [Exchange(ENTER_FRAME, [])];
      var _ :- Send(ENTER_FRAME);
      var ok, heard := AwaitApplication();
      run := [Exchange(ENTER_FRAME, heard)];
      HearFirst(old(log), ENTER_FRAME, heard);
      if ok.Raised? { return Raised, run; }
      var more := InTime();
      while more
        invariant log == old(log) + run
        invariant Greeted([ping] + run, Ok(false))
        decreases |clock|, more
      {
        var up, e := Ping();
        ghost var was := [ping] + run;
        run := run + [e];
        GreetedMore(was, e, up);
        assert [ping] + run == was + [e];
        if up != Ok(false) { return up, run; }
        more := InTime();
      }
      r := Ok(false);
    }

    /** Ping, and fall back on the application. */
    method Greet() returns (r: Outcome<bool>, ghost run: seq<Exchange>)
      modifies this`clock, this`inbox, this`sends, this`log, this`broken
      ensures log == old(log) + run
      ensures Greeted(run, r)
      ensures r.Raised? ==> broken
    {
      hide Answered, Simple;
      var up, ping := Ping();
      run := [ping];
      if up != Ok(false) { return up, run; }
      ghost var more;
      r, more := RemoteEnter(ping);
      run := [ping] + more;
    }

    /** Steps 3 to 7: erase, describe, write, finish, verify. */
    method Program(job: Job) returns (r: Outcome<bool>, ghost run: seq<Exchange>)
      modifies this`clock, this`inbox, this`sends, this`log, this`broken
      ensures log == old(log) + run
      ensures Ran(run, job.Frames(), r)
      ensures r == Ok(true) ==> job.Encoded()
      ensures r.Raised? ==> broken || !job.Encoded()
    {
      hide Ran, Settings, WriteFrames, Encodable, Metadata, InfoOf, Plan;
      ghost var settings := Settings(Metadata(job.image, job.crc, job.version));
      ghost var step;

      r, run := Command(Simple(ERASE));
      ghost var plan := [Simple(ERASE)];
      if r != Ok(true) {
        assert plan == Upto(job, 1);
        PlanShort(job, run, 1, r);
        return;
      }

      r, step := SetMetadata(job.image, job.crc, job.version);
      assert Encodable(Metadata(job.image, job.crc, job.version)) == job.Encoded() by { EncodableWhen(job); }
      RanThen(run, plan, step, settings, r);
      plan, run := plan + settings, run + step;
      if r != Ok(true) {
        assert plan == Upto(job, 2);
        PlanShort(job, run, 2, r);
        return;
      }

      r, step := WriteData(job.image);
      RanThen(run, plan, step, WriteFrames(job.image), r);
      plan, run := plan + WriteFrames(job.image), run + step;
      if r != Ok(true) {
        assert plan == Upto(job, 3);
        PlanShort(job, run, 3, r);
        return;
      }

      r, step := Command(Simple(FINISH));
      RanThen(run, plan, step, [Simple(FINISH)], r);
      plan, run := plan + [Simple(FINISH)], run + step;
      if r != Ok(true) {
        assert plan == Upto(job, 4);
        PlanShort(job, run, 4, r);
        return;
      }

      r, step := Verify();
      RanThen(run, plan, step, [Simple(GET_INFO)], r);
      run := run + step;
      PlanParts(job);
    }

    /** Step 7: the status alone decides. */
    method Verify() returns (r: Outcome<bool>, ghost run: seq<Exchange>)
      modifies this`clock, this`inbox, this`sends, this`log, this`broken
      ensures log == old(log) + run
      ensures Ran(run, [Simple(GET_INFO)], r)
      ensures r.Raised? ==> broken
    {
      var info, e := GetInfo();
      r, run := if info.Raised? then Raised else Ok(info.value.status == Some(0)), [e];
      RanInfo(e, r);
    }

    /** The work between opening and shutting the bus. */
    method Body(job: Job) returns (r: Outcome<bool>, ghost s: Stages)
      modifies this`clock, this`inbox, this`sends, this`log, this`broken
      ensures log == old(log) + s.All()
      ensures Session(s, job, r)
      ensures r.Raised? ==> broken || !job.Encoded()
    {
      hide Greeted, Ran, Jumped, Encodable, Plan, InfoOf, Simple;
      var up, greet := Greet();
      s := Stages(greet, [], [], []);
      if up != Ok(true) { return up, s; }

      if !job.force {
        var info, e := GetInfo();
        s := s.(inquire := [e]);
        if info.Raised? { return Raised, s; }
        if info.value.status == Some(0) && info.value.version != 0 && info.value.version == job.version {
          return Ok(true), s;
        }
      }

      ghost var program, jump;
      r, program := Program(job);
      s := s.(program := program);
      if r != Ok(true) { return; }

      r, jump := Jump();
      s := s.(jump := jump);
    }
  }

  /** The entry point. `file` is what the firmware path holds, if it is a file at all. */
  method Flash(bus: Bus, file: Option<seq<Byte>>, checksum: seq<Byte> -> int, version: int, force: bool)
    returns (r: Outcome<bool>, ghost s: Stages)
    requires !bus.open && bus.log == []
    modifies bus
    ensures !bus.open
    ensures bus.log == s.All()
    ensures (file.None? || file.value == []) ==> r == Ok(false) && bus.log == []
    ensures file.Some? && file.value != [] ==>
              var job := Job(file.value, checksum(file.value), version, force);
              Session(s, job, r) && (r.Raised? ==> bus.broken || !job.Encoded())
  {
    s := Stages([], [], [], []);
    if file.None? { return Ok(false), s; }
    if file.value == [] { return Ok(false), s; }
    bus.open := true;
    r, s := bus.Body(Job(file.value, checksum(file.value), version, force));
    bus.open := false;
  }
}
