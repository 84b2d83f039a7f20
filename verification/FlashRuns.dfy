/** What every run of the flasher puts on the wire, read off the log alone: the order of
    its commands, what each one waits for, and the image it transmits. */
module FlashRuns {
  import opened Wrappers
  import opened Bootloader

  // ---------------------------------------------------------------- reading a log

  function Sent(log: seq<Exchange>): (fs: seq<Frame>)
    ensures |fs| == |log| && forall k | 0 <= k < |fs| :: fs[k] == log[k].frame
  {
    seq(|log|, k requires 0 <= k < |log| => log[k].frame)
  }

  predicate Carries(f: Frame, cmd: Byte) {
    f.id == BOOT_RX && f.data != [] && f.data[0] == cmd
  }

  /** The WRITE_DATA frames of a transmission, in order. */
  function Writes(fs: seq<Frame>): seq<Frame> {
    if fs == [] then []
    else (if Carries(fs[0], WRITE) then [fs[0]] else []) + Writes(fs[1..])
  }

  /** The bytes after each frame's command byte, end to end. */
  function Payload(fs: seq<Frame>): seq<Byte> {
    if fs == [] then []
    else (if fs[0].data == [] then [] else fs[0].data[1..]) + Payload(fs[1..])
  }

  lemma {:induction false} WritesConcat(a: seq<Frame>, b: seq<Frame>)
    ensures Writes(a + b) == Writes(a) + Writes(b)
  {
    if a == [] {
      assert a + b == b;
    } else {
      assert (a + b)[1..] == a[1..] + b && (a + b)[0] == a[0];
      WritesConcat(a[1..], b);
      Regroup(Writes([a[0]]), Writes(a[1..]), Writes(b));
    }
  }

  lemma {:induction false} PayloadConcat(a: seq<Frame>, b: seq<Frame>)
    ensures Payload(a + b) == Payload(a) + Payload(b)
  {
    if a == [] {
      assert a + b == b;
    } else {
      assert (a + b)[1..] == a[1..] + b && (a + b)[0] == a[0];
      PayloadConcat(a[1..], b);
      Regroup(Payload([a[0]]), Payload(a[1..]), Payload(b));
    }
  }

  lemma {:induction false} NoWrites(fs: seq<Frame>)
    requires forall k | 0 <= k < |fs| :: !Carries(fs[k], WRITE)
    ensures Writes(fs) == []
  {
    if fs != [] {
      NoWrites(fs[1..]);
    }
  }

  lemma {:induction false} AllWrites(fs: seq<Frame>)
    requires forall k | 0 <= k < |fs| :: Carries(fs[k], WRITE)
    ensures Writes(fs) == fs
  {
    if fs != [] {
      AllWrites(fs[1..]);
    }
  }

  // ---------------------------------------------------------------- the image in frames

  function Padding(n: nat): nat { (7 - n % 7) % 7 }

  /** Seven bytes a frame, rounded up, and nothing after the image but 0xFF. */
  lemma {:induction false} FramesCarryImage(image: seq<Byte>)
    ensures |WriteFrames(image)| == (|image| + 6) / 7
    ensures forall f | f in WriteFrames(image) :: Carries(f, WRITE) && |f.data| == 8
    ensures Payload(WriteFrames(image)) == image + Filler(Padding(|image|))
    decreases |image|
  {
    if image != [] {
      FramesCarryImage(Rest(image));
      PayloadStep(image);
      PaddingStep(image);
    }
  }

  lemma PayloadStep(image: seq<Byte>)
    requires image != []
    ensures Payload(WriteFrames(image)) == Chunk(image) + Payload(WriteFrames(Rest(image)))
  {
    var fs := WriteFrames(image);
    assert fs[1..] == WriteFrames(Rest(image));
    assert fs[0].data[1..] == Chunk(image);
  }

  lemma PaddingStep(image: seq<Byte>)
    requires image != []
    ensures Chunk(image) + (Rest(image) + Filler(Padding(|Rest(image)|))) == image + Filler(Padding(|image|))
  {
    if |image| >= 7 {
      assert Padding(|image| - 7) == Padding(|image|);
      hide Filler;
      Regroup(image[..7], image[7..], Filler(Padding(|image|)));
      assert image[..7] + image[7..] == image;
    } else {
      assert Padding(|image|) == 7 - |image|;
      assert Filler(0) == [];
    }
  }

  lemma PrefixCarriesPrefix(image: seq<Byte>, k: nat)
    requires k <= |WriteFrames(image)|
    ensures Payload(WriteFrames(image)[..k]) <= image + Filler(Padding(|image|))
  {
    var fs := WriteFrames(image);
    FramesCarryImage(image);
    PayloadConcat(fs[..k], fs[k..]);
    assert fs[..k] + fs[k..] == fs;
  }

  // ---------------------------------------------------------------- the shape of a run

  /** Where the plan's steps fall. */
  lemma PlanAt(job: Job)
    requires job.Encoded()
    ensures var p := job.Frames(); var n := |WriteFrames(job.image)|;
            && |p| == n + 6
            && p[0] == Simple(ERASE)
            && p[1] == Setting(SET_SIZE, |job.image|)
            && p[2] == Setting(SET_CRC, job.crc % LIMIT32)
            && p[3] == Setting(SET_VERSION, job.version)
            && p[4..4 + n] == WriteFrames(job.image)
            && p[4 + n] == Simple(FINISH)
            && p[5 + n] == Simple(GET_INFO)
  {
    hide WriteFrames, Setting, Simple;
    SettingsInFull(Metadata(job.image, job.crc, job.version));
  }

  lemma SettingsInFull(items: seq<(Byte, int)>)
    requires |items| == 3 && Fits(items[0].1) && Fits(items[1].1) && Fits(items[2].1)
    ensures Settings(items) == [Setting(items[0].0, items[0].1), Setting(items[1].0, items[1].1), Setting(items[2].0, items[2].1)]
  {
    hide Setting;
    assert items[1..][1..] == items[2..] && items[2..][1..] == [];
    assert Settings(items[2..]) == [Setting(items[2].0, items[2].1)];
    assert Settings(items[1..]) == [Setting(items[1].0, items[1].1)] + Settings(items[2..]);
  }

  /** A plan cut short by a setting that does not fit erases and describes, at most. */
  lemma ShortPlanOnlyDescribes(job: Job)
    requires !job.Encoded()
    ensures var p := job.Frames();
            forall f | f in p :: f == Simple(ERASE) || Carries(f, SET_SIZE) || Carries(f, SET_CRC) || Carries(f, SET_VERSION)
  {
    SettingsDescribe(Metadata(job.image, job.crc, job.version));
  }

  lemma {:induction false} SettingsDescribe(items: seq<(Byte, int)>)
    ensures forall f | f in Settings(items) :: exists k :: 0 <= k < |items| && Carries(f, items[k].0)
  {
    if items != [] && Fits(items[0].1) {
      SettingsDescribe(items[1..]);
      var first := Setting(items[0].0, items[0].1);
      assert Carries(first, items[0].0);
      forall f | f in Settings(items)
        ensures exists k :: 0 <= k < |items| && Carries(f, items[k].0)
      {
        if f != first {
          assert f in Settings(items[1..]);
          var k :| 0 <= k < |items[1..]| && Carries(f, items[1..][k].0);
          assert Carries(f, items[k + 1].0);
        }
      }
    }
  }

  /** Frames that ask or wake but change nothing on the board's flash. */
  predicate Harmless(f: Frame) {
    f == Simple(PING) || f == ENTER_FRAME || f == Simple(GET_INFO)
  }

  /** Where the programming begins in the log. */
  function Start(s: Stages): nat { |s.greet| + |s.inquire| }

  lemma Opening(s: Stages, job: Job, r: Outcome<bool>)
    requires Session(s, job, r)
    ensures forall k | 0 <= k < Start(s) :: Harmless(s.All()[k].frame)
    ensures forall k | 0 <= k < |s.program| :: s.All()[Start(s) + k] == s.program[k]
    ensures |s.jump| > 0 ==> |s.All()| == Start(s) + |s.program| + 1 && s.All()[|s.All()| - 1] == s.jump[0]
    ensures s.jump == [] ==> |s.All()| == Start(s) + |s.program|
  {
    hide Ran, Plan, Simple, Answered, InfoOf, Encodable, Acked;
  }

  lemma Programming(s: Stages, job: Job, r: Outcome<bool>)
    requires Session(s, job, r)
    ensures Follows(s.program, job.Frames())
    ensures s.jump != [] ==> |s.jump| == 1 && s.jump[0].frame == Simple(JUMP) && job.Encoded() && Ran(s.program, job.Frames(), Ok(true))
  {
    hide Greeted, Plan, Inquired, Encodable;
  }

  // ---------------------------------------------------------------- order and acknowledgements

  /** The commands of step 3 and 4, acknowledged with 0, at `b` in the log. */
  predicate Described(log: seq<Exchange>, b: nat, job: Job)
    requires b + 4 <= |log| && job.Encoded()
  {
    && log[b].frame == Simple(ERASE)
    && log[b + 1].frame == Setting(SET_SIZE, |job.image|)
    && log[b + 2].frame == Setting(SET_CRC, job.crc % LIMIT32)
    && log[b + 3].frame == Setting(SET_VERSION, job.version)
    && forall k | b <= k < b + 4 :: Acked(log[k])
  }

  /** Which steps of the plan carry data, finish or jump. */
  lemma PlanIndex(job: Job, k: nat)
    requires k < |job.Frames()|
    ensures Carries(job.Frames()[k], WRITE) ==> job.Encoded() && 4 <= k < 4 + |WriteFrames(job.image)|
    ensures Carries(job.Frames()[k], FINISH) ==> job.Encoded() && k == 4 + |WriteFrames(job.image)|
    ensures !Carries(job.Frames()[k], JUMP)
  {
    hide WriteFrames, Plan;
    var p := job.Frames();
    if job.Encoded() {
      PlanAt(job);
      if 4 <= k < 4 + |WriteFrames(job.image)| {
        PlanWrites(job, k);
        FramesCarryImage(job.image);
        assert p[k] in WriteFrames(job.image);
      }
    } else {
      ShortPlanOnlyDescribes(job);
      assert p[k] in p;
    }
  }

  lemma PlanWrites(job: Job, k: nat)
    requires job.Encoded() && 4 <= k < 4 + |WriteFrames(job.image)|
    ensures |job.Frames()| == |WriteFrames(job.image)| + 6
    ensures job.Frames()[k] == WriteFrames(job.image)[k - 4]
  {
    hide WriteFrames, Plan, Setting;
    PlanAt(job);
    assert job.Frames()[k] == job.Frames()[4..4 + |WriteFrames(job.image)|][k - 4];
  }

  /** The log from `Start` on is the plan, step by step. */
  lemma InPlan(s: Stages, job: Job, r: Outcome<bool>, i: nat)
    requires Session(s, job, r) && i < |s.All()| && !Harmless(s.All()[i].frame) && !Carries(s.All()[i].frame, JUMP)
    ensures var log, b := s.All(), Start(s);
            && b <= i < b + |job.Frames()|
            && (forall k | b <= k <= i :: log[k].frame == job.Frames()[k - b])
            && forall k | b <= k < i :: Acked(log[k])
  {
    hide Session, Harmless, Acked, Plan;
    Opening(s, job, r);
    Programming(s, job, r);
  }

  /** No WRITE_DATA goes out before ERASE and all three settings were acknowledged with 0;
      and it is the next chunk of the image, every chunk before it acknowledged with 0. */
  lemma WriteOnlyWhenDescribed(s: Stages, job: Job, r: Outcome<bool>, i: nat)
    requires Session(s, job, r)
    requires i < |s.All()| && Carries(s.All()[i].frame, WRITE)
    ensures job.Encoded()
    ensures var log, b := s.All(), Start(s);
            && b + 4 <= i < b + 4 + |WriteFrames(job.image)|
            && Described(log, b, job)
            && log[i].frame == WriteFrames(job.image)[i - b - 4]
            && forall k | b + 4 <= k < i :: Acked(log[k]) && log[k].frame == WriteFrames(job.image)[k - b - 4]
  {
    hide Session, WriteFrames, Setting, Plan, Acked;
    var log, b := s.All(), Start(s);
    InPlan(s, job, r, i);
    PlanIndex(job, i - b);
    PlanAt(job);
    forall k | b + 4 <= k <= i ensures log[k].frame == WriteFrames(job.image)[k - b - 4] {
      PlanWrites(job, k - b);
    }
  }

  /** FINISH goes out only when the whole image has been acknowledged. */
  lemma FinishOnlyWhenWritten(s: Stages, job: Job, r: Outcome<bool>, i: nat)
    requires Session(s, job, r)
    requires i < |s.All()| && Carries(s.All()[i].frame, FINISH)
    ensures job.Encoded()
    ensures var log, b, n := s.All(), Start(s), |WriteFrames(job.image)|;
            && i == b + 4 + n
            && Described(log, b, job)
            && Sent(log[b + 4..i]) == WriteFrames(job.image)
            && forall k | b <= k < i :: Acked(log[k])
  {
    hide Session, WriteFrames, Setting, Plan, Acked;
    var log, b := s.All(), Start(s);
    InPlan(s, job, r, i);
    PlanIndex(job, i - b);
    PlanAt(job);
    forall k | b + 4 <= k < i ensures log[k].frame == WriteFrames(job.image)[k - b - 4] {
      PlanWrites(job, k - b);
    }
  }

  /** JUMP is the last frame of a run, sent only when FINISH and a later GET_INFO gave 0. */
  lemma JumpOnlyWhenVerified(s: Stages, job: Job, r: Outcome<bool>, i: nat)
    requires Session(s, job, r)
    requires i < |s.All()| && Carries(s.All()[i].frame, JUMP)
    ensures job.Encoded()
    ensures var log, b, n := s.All(), Start(s), |WriteFrames(job.image)|;
            && i == |log| - 1 == b + 6 + n
            && Described(log, b, job)
            && Sent(log[b + 4..b + 4 + n]) == WriteFrames(job.image)
            && log[i - 2].frame == Simple(FINISH)
            && log[i - 1].frame == Simple(GET_INFO)
            && forall k | b <= k < i :: Acked(log[k])
  {
    hide Session, WriteFrames, Setting, Plan, Acked;
    var log, b := s.All(), Start(s);
    JumpEndsIt(s, job, r, i);
    PlanAt(job);
    var k := b + 4 + |WriteFrames(job.image)|;
    assert Carries(log[k].frame, FINISH);
    hide Carries, Described;
    FinishOnlyWhenWritten(s, job, r, k);
  }

  lemma JumpEndsIt(s: Stages, job: Job, r: Outcome<bool>, i: nat)
    requires Session(s, job, r)
    requires i < |s.All()| && Carries(s.All()[i].frame, JUMP)
    ensures job.Encoded()
    ensures var log, b, p := s.All(), Start(s), job.Frames();
            && i == |log| - 1 == b + |p|
            && (forall k | b <= k < i :: log[k].frame == p[k - b])
            && forall k | b <= k < i :: Acked(log[k])
  {
    hide Session, Plan, Acked;
    var b := Start(s);
    Opening(s, job, r);
    Programming(s, job, r);
    if i < b + |s.program| {
      assert s.All()[i].frame == job.Frames()[i - b];
      PlanIndex(job, i - b);
      assert false;
    }
  }

  // ---------------------------------------------------------------- verdicts

  /** An answer that says, in its own bytes, that this version is installed. */
  predicate Installed(reply: Option<Frame>, version: int) {
    && reply.Some? && |reply.value.data| >= 8
    && reply.value.data[1] == 0
    && reply.value.data[6] == version % 256 && reply.value.data[7] == version / 256
  }

  lemma SameVersionIsInstalled(e: Exchange, version: int)
    ensures SameVersion(e, version) <==> Installed(Reply(e), version) && version != 0
  {
    var reply, info := Reply(e), InfoOf(e);
    hide Reply, InfoOf;
    if reply.Some? && |reply.value.data| >= 8 {
      VersionSplits(reply.value.data[6], reply.value.data[7], version);
    }
  }

  lemma VersionSplits(lo: Byte, hi: Byte, version: int)
    ensures LowFirst(lo, hi, 0, 0) == version <==> lo == version % 256 && hi == version / 256
  {
  }

  /** A True result is the same-version skip, with nothing erased, written or started, or the
      complete sequence, every step up to the jump acknowledged with 0. */
  lemma SuccessMeans(s: Stages, job: Job, r: Outcome<bool>)
    requires Session(s, job, r) && r == Ok(true)
    ensures var log := s.All();
            || (&& !job.force && job.version != 0
                && (forall e | e in log :: Harmless(e.frame))
                && log[|log| - 1].frame == Simple(GET_INFO)
                && Installed(Reply(log[|log| - 1]), job.version))
            || (&& job.Encoded()
                && log[|log| - 1].frame == Simple(JUMP)
                && (Answered(log[|log| - 1]) ==> Acked(log[|log| - 1]))
                && Sent(log[Start(s)..|log| - 1]) == job.Frames()
                && forall k | Start(s) <= k < |log| - 1 :: Acked(log[k]))
  {
    Opening(s, job, r);
    var log := s.All();
    if s.jump == [] {
      hide Greeted, Plan, Ran, Encodable, InfoOf;
      assert s.inquire != [] && log[|log| - 1] == s.inquire[0];
      SameVersionIsInstalled(s.inquire[0], job.version);
      forall e | e in log ensures Harmless(e.frame) {
        var k :| 0 <= k < |log| && log[k] == e;
      }
    } else {
      hide Greeted, Plan, Inquired, Encodable;
      assert Ran(s.program, job.Frames(), Ok(true)) && Jumped(s.jump, r);
      assert log[Start(s)..|log| - 1] == s.program;
    }
  }

  /** A False result has a cause on the wire: nobody answered, or the last command sent was
      not acknowledged with 0. */
  lemma FailureMeans(s: Stages, job: Job, r: Outcome<bool>)
    requires Session(s, job, r) && r == Ok(false)
    ensures var log := s.All();
            && log != []
            && (|| (&& s.program == [] && forall e | e in log :: Harmless(e.frame) && (e.frame == Simple(PING) ==> !Answered(e)))
                || (&& (s.program != [])
                    && !Acked(log[|log| - 1])
                    && forall k | Start(s) <= k < |log| - 1 :: Acked(log[k])))
  {
    Opening(s, job, r);
    var log := s.All();
    if s.program == [] {
      assert !Ran([], job.Frames(), Ok(true)) by { assert job.Frames() != []; }
      hide Plan, Answered, InfoOf, Inquired, Ran;
      assert Greeted(s.greet, r) && log == s.greet;
      forall e | e in log ensures Harmless(e.frame) && (e.frame == Simple(PING) ==> !Answered(e)) {
        var k :| 0 <= k < |log| && log[k] == e;
      }
    } else {
      hide Greeted, Plan, Inquired, InfoOf;
      if s.jump == [] {
        assert log[|log| - 1] == s.program[|s.program| - 1];
      }
    }
  }

  /** Once JUMP is out, silence and status 0 are success, and any other status is failure. */
  lemma JumpDecides(s: Stages, job: Job, r: Outcome<bool>)
    requires Session(s, job, r) && s.jump != [] && r.Ok?
    ensures var reply := Reply(s.jump[0]); r.value <==> reply.None? || reply.value.data[1] == 0
  {
    hide Greeted, Plan, Ran, Inquired, InfoOf;
  }

  /** An unforced run goes no further than the inquiry if and only if its answer says, in its own
      bytes, that this version, not 0, is installed. */
  lemma SkipDecides(s: Stages, job: Job, r: Outcome<bool>)
    requires Session(s, job, r) && s.inquire != [] && (s.program == [] ==> r.Ok?)
    ensures !job.force
    ensures s.program == [] <==> Installed(Reply(s.inquire[0]), job.version) && job.version != 0
    ensures s.program == [] ==> r == Ok(true)
  {
    SameVersionIsInstalled(s.inquire[0], job.version);
    assert job.Frames() != [];
    hide Greeted, Plan, InfoOf, Installed, SameVersion;
  }

  // ---------------------------------------------------------------- the image on the wire

  /** However a run ends, the chunks sent are a prefix of the image's chunks; once FINISH is
      on the wire they are all of them: ceil(n/7) eight-byte frames that spell the image
      followed only by 0xFF. */
  lemma ImageOnTheWire(s: Stages, job: Job, r: Outcome<bool>)
    requires Session(s, job, r)
    ensures var ws := Writes(Sent(s.All()));
            && ws <= WriteFrames(job.image)
            && (forall f | f in ws :: |f.data| == 8)
            && Payload(ws) <= job.image + Filler(Padding(|job.image|))
    ensures (exists i :: 0 <= i < |s.All()| && Carries(s.All()[i].frame, FINISH)) ==>
              var ws := Writes(Sent(s.All()));
              && |ws| == (|job.image| + 6) / 7
              && Payload(ws) == job.image + Filler(Padding(|job.image|))
  {
    hide Session, WriteFrames, Simple, Filler, Acked, Encodable, Described, Setting;
    var log, p, m := s.All(), job.Frames(), |s.program|;
    WritesOfRun(s, job, r);
    var ws := Writes(Sent(log));
    WritesOfPlan(job, m);
    FramesCarryImage(job.image);
    PrefixCarriesPrefix(job.image, |ws|);
    assert ws == WriteFrames(job.image)[..|ws|];
    if i :| 0 <= i < |log| && Carries(log[i].frame, FINISH) {
      FinishOnlyWhenWritten(s, job, r, i);
      FinishIsProgrammed(s, job, r, i);
      assert ws == WriteFrames(job.image);
    }
  }

  lemma FinishIsProgrammed(s: Stages, job: Job, r: Outcome<bool>, i: nat)
    requires Session(s, job, r)
    requires i < |s.All()| && Carries(s.All()[i].frame, FINISH)
    ensures i - Start(s) < |s.program|
  {
    hide Session, Plan, Acked;
    Opening(s, job, r);
    Programming(s, job, r);
  }

  lemma WritesOfRun(s: Stages, job: Job, r: Outcome<bool>)
    requires Session(s, job, r)
    ensures |s.program| <= |job.Frames()|
    ensures Writes(Sent(s.All())) == Writes(job.Frames()[..|s.program|])
  {
    hide Session, Writes, Plan, Acked;
    var b, m, fs := Start(s), |s.program|, Sent(s.All());
    Opening(s, job, r);
    Programming(s, job, r);
    assert fs[b..b + m] == job.Frames()[..m];
    WritesMiddle(fs, b, b + m);
  }

  lemma WritesMiddle(fs: seq<Frame>, b: nat, c: nat)
    requires b <= c <= |fs|
    requires forall k | 0 <= k < b || c <= k < |fs| :: !Carries(fs[k], WRITE)
    ensures Writes(fs) == Writes(fs[b..c])
  {
    hide Carries, Writes;
    NoWrites(fs[..b]);
    NoWrites(fs[c..]);
    assert fs == fs[..b] + fs[b..c] + fs[c..];
    WritesConcat(fs[..b] + fs[b..c], fs[c..]);
    WritesConcat(fs[..b], fs[b..c]);
  }

  lemma WritesOfPlan(job: Job, m: nat)
    requires m <= |job.Frames()|
    ensures Writes(job.Frames()[..m]) <= WriteFrames(job.image)
    ensures job.Encoded() && m > 4 + |WriteFrames(job.image)| ==> Writes(job.Frames()[..m]) == WriteFrames(job.image)
  {
    hide WriteFrames, Plan;
    var p := job.Frames();
    if !job.Encoded() {
      ShortPlanOnlyDescribes(job);
      assert forall k | 0 <= k < m :: p[k] in p;
      NoWrites(p[..m]);
      return;
    }
    PlanAt(job);
    FramesCarryImage(job.image);
    var n := |WriteFrames(job.image)|;
    assert forall i | 0 <= i < 4 || 4 + n <= i < |p| :: !Carries(p[i], WRITE);
    hide Writes, Setting, Simple;
    if m <= 4 {
      NoWrites(p[..m]);
      return;
    }
    var k := if m <= 4 + n then m else 4 + n;
    PlanCut(p, n, k, m, WriteFrames(job.image));
  }

  lemma PlanCut(p: seq<Frame>, n: nat, k: nat, m: nat, ws: seq<Frame>)
    requires 4 <= k <= m <= |p| == n + 6 && k <= 4 + n && (k < 4 + n ==> k == m)
    requires p[4..4 + n] == ws && forall f | f in ws :: Carries(f, WRITE)
    requires forall i | 0 <= i < 4 || 4 + n <= i < |p| :: !Carries(p[i], WRITE)
    ensures Writes(p[..m]) == ws[..k - 4]
  {
    hide Carries, Writes;
    Slices(p, 4, k, 4 + n);
    Slices(p, 4, k, m);
    assert forall i | 0 <= i < |p[4..k]| :: p[4..k][i] == ws[i] && ws[i] in ws;
    AllWrites(p[4..k]);
    WritesMiddle(p[..m], 4, k);
  }

  lemma Slices(p: seq<Frame>, i: nat, j: nat, k: nat)
    requires i <= j <= k <= |p|
    ensures p[..k][i..j] == p[i..j] == p[i..k][..j - i]
  {
  }
}
