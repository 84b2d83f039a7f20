/** Watchdogs, manual recoveries and test runs sharing one bench under one file lock
    (tools/bench.py). A run of the whole bench is a log of what the processes did, in any
    interleaving the lock allows; a process may die anywhere, which frees its lock. */
module BenchLock {
  import opened Wrappers

  // ---------------------------------------------------------------- the recovery ladder

  datatype Rung = RestartBroker | PsuCycle | UnloadCan | LoadCan | CanUp

  function Ladder(level: int): seq<Rung> {
    if level <= 1 then [RestartBroker]
    else [PsuCycle, UnloadCan, LoadCan, CanUp, RestartBroker]
  }

  /** What a process does, as the others could see it. */
  datatype Deed =
    | Checked(healthy: bool)
    | Took
    | Busy
    | Did(level: int, rung: Rung)
    | Worked
    | Left(code: int)
    | Died

  function Climb(level: int): seq<Deed> {
    seq(|Ladder(level)|, k requires 0 <= k < |Ladder(level)| => Did(level, Ladder(level)[k]))
  }

  // ---------------------------------------------------------------- what a recovery does to the bench

  /** When the CAN controllers were last reset, the driver loaded, the links brought up on it, and the
      broker restarted. */
  datatype Rig = Rig(now: nat, reset: nat, driver: Option<nat>, links: Option<nat>, broker: nat)

  /** Unloading the driver takes its links with it; loading it does nothing if it is loaded; links come
      up only on a driver. */
  function Effect(rig: Rig, rung: Rung): Rig {
    var next := rig.(now := rig.now + 1);
    match rung
    case PsuCycle => next.(reset := rig.now)
    case UnloadCan => next.(driver := None, links := None)
    case LoadCan => if rig.driver.Some? then next else next.(driver := Some(rig.now))
    case CanUp => next.(links := if rig.driver.Some? then Some(rig.now) else None)
    case RestartBroker => next.(broker := rig.now)
  }

  /** The bench after some deeds, of which only recovery steps change it. */
  function Recovered(rig: Rig, deeds: seq<Deed>): Rig {
    if deeds == [] then rig
    else
      var n := |deeds| - 1;
      var before := Recovered(rig, deeds[..n]);
      if deeds[n].Did? then Effect(before, deeds[n].rung) else before
  }

  /** The driver was loaded after a reset, the links came up on that driver, and the broker was
      restarted after all of it; all since then. */
  predicate Rebuilt(rig: Rig, since: nat) {
    && rig.driver.Some? && rig.links.Some?
    && since <= rig.reset < rig.driver.value < rig.links.value < rig.broker
  }

  lemma RecoveredConcat(rig: Rig, a: seq<Deed>, b: seq<Deed>)
    ensures Recovered(rig, a + b) == Recovered(Recovered(rig, a), b)
    decreases |b|
  {
    if b == [] {
      assert a + b == a;
    } else {
      var n := |b| - 1;
      assert (a + b)[..|a| + n] == a + b[..n];
      RecoveredConcat(rig, a, b[..n]);
    }
  }

  lemma RecoveredOne(rig: Rig, deeds: seq<Deed>, e: Deed)
    ensures Recovered(rig, deeds + [e]) == if e.Did? then Effect(Recovered(rig, deeds), e.rung) else Recovered(rig, deeds)
  {
    assert (deeds + [e])[..|deeds|] == deeds;
  }

  lemma LevelTwoSteps(rig: Rig, level: int)
    requires level >= 2
    ensures Recovered(rig, Climb(level)) ==
            Effect(Effect(Effect(Effect(Effect(rig, PsuCycle), UnloadCan), LoadCan), CanUp), RestartBroker)
  {
    hide Effect;
    var c := Climb(level);
    assert |c| == 5;
    assert c[..0] == [] && c[..1] == c[..0] + [c[0]] && c[..2] == c[..1] + [c[1]] && c[..3] == c[..2] + [c[2]];
    assert c[..4] == c[..3] + [c[3]] && c == c[..4] + [c[4]];
    RecoveredOne(rig, c[..0], c[0]);
    RecoveredOne(rig, c[..1], c[1]);
    RecoveredOne(rig, c[..2], c[2]);
    RecoveredOne(rig, c[..3], c[3]);
    RecoveredOne(rig, c[..4], c[4]);
  }

  /** From every state of the bench, level 2 and above rebuild all that a power-on reset knocks over. */
  lemma LevelTwoRebuilds(rig: Rig, level: int)
    requires level >= 2
    ensures Rebuilt(Recovered(rig, Climb(level)), rig.now)
  {
    LevelTwoSteps(rig, level);
    hide Recovered, Climb;
  }

  /** Level 1 and below restart the broker and touch nothing else. */
  lemma LevelOneRestartsBroker(rig: Rig, level: int)
    requires level <= 1
    ensures Recovered(rig, Climb(level)) == rig.(now := rig.now + 1, broker := rig.now)
  {
    assert Climb(level) == [] + [Did(level, RestartBroker)];
    RecoveredOne(rig, [], Did(level, RestartBroker));
  }

  // ---------------------------------------------------------------- the programs

  /** A watchdog knows whether a runner unit is down; a recovery its level; a run holds the
      lock for as long as it likes. */
  datatype Kind = Watchdog(down: bool) | Recovery(level: int) | TestRun

  datatype Verdict = Clean | StillUnhealthy

  datatype Pc =
    | Start
    | Locking
    | Rechecking
    | Climbing(level: int, k: nat)
    | Judging(level: int)
    | Working
    | Leaving(verdict: Verdict, held: bool)
    | Gone

  function Begin(kind: Kind): Pc {
    if kind.Watchdog? then Start else Locking
  }

  function ExitCode(kind: Kind, v: Verdict): int {
    if v == StillUnhealthy || (kind.Watchdog? && kind.down) then 1 else 0
  }

  /** Where a deed takes a process, if it may do it at all. */
  function After(kind: Kind, pc: Pc, e: Deed): Option<Pc> {
    if pc.Gone? then None
    else if e.Died? then Some(Gone)
    else match (pc, e)
      case (Leaving(v, _), Left(code)) => if code == ExitCode(kind, v) then Some(Gone) else None
      case (Climbing(level, k), Did(l, rung)) =>
        if l == level && k < |Ladder(level)| && rung == Ladder(level)[k]
        then Some(if k + 1 < |Ladder(level)| then Climbing(level, k + 1)
                  else if kind.Watchdog? then Judging(level) else Leaving(Clean, true))
        else None
      case (Locking, Took) =>
        Some(match kind case Watchdog(_) => Rechecking case Recovery(level) => Climbing(level, 0) case TestRun => Working)
      case (Working, Worked) => Some(Working)
      case (Working, Left(_)) => Some(Gone)
      case (Start, Checked(ok)) => Some(if ok then Leaving(Clean, false) else Locking)
      case (Locking, Busy) => if kind.Watchdog? then Some(Leaving(Clean, false)) else None
      case (Rechecking, Checked(ok)) => Some(if ok then Leaving(Clean, true) else Climbing(1, 0))
      case (Judging(level), Checked(ok)) =>
        Some(if ok then Leaving(Clean, true) else if level == 1 then Climbing(2, 0) else Leaving(StillUnhealthy, true))
      case _ => None
  }

  // ---------------------------------------------------------------- the bench

  datatype Entry = Entry(pid: nat, deed: Deed)

  function PcOf(kinds: nat -> Kind, log: seq<Entry>, pid: nat): Pc {
    if log == [] then Begin(kinds(pid)) else
      var last := log[|log| - 1];
      var pc := PcOf(kinds, log[..|log| - 1], pid);
      if last.pid != pid then pc
      else match After(kinds(pid), pc, last.deed) case Some(q) => q case None => pc
  }

  /** Who holds the lock, from the log alone. */
  function Holder(log: seq<Entry>): Option<nat> {
    if log == [] then None else
      var last, before := log[|log| - 1], Holder(log[..|log| - 1]);
      if last.deed.Took? then Some(last.pid)
      else if (last.deed.Left? || last.deed.Died?) && before == Some(last.pid) then None
      else before
  }

  /** The lock grants one holder; only the non-blocking attempt notices that it is taken. */
  predicate Allowed(kinds: nat -> Kind, log: seq<Entry>, e: Entry) {
    && After(kinds(e.pid), PcOf(kinds, log, e.pid), e.deed).Some?
    && (e.deed.Took? ==> Holder(log) == None)
    && (e.deed.Busy? ==> Holder(log) != None)
  }

  predicate Legal(kinds: nat -> Kind, log: seq<Entry>) {
    log == [] || (Legal(kinds, log[..|log| - 1]) && Allowed(kinds, log[..|log| - 1], log[|log| - 1]))
  }

  function Own(log: seq<Entry>, pid: nat): seq<Deed> {
    if log == [] then [] else
      Own(log[..|log| - 1], pid) + if log[|log| - 1].pid == pid then [log[|log| - 1].deed] else []
  }

  // ---------------------------------------------------------------- who may touch the bench

  predicate HoldsLock(pc: Pc) {
    pc.Rechecking? || pc.Climbing? || pc.Judging? || pc.Working? || (pc.Leaving? && pc.held)
  }

  lemma {:induction false} LockIsHeld(kinds: nat -> Kind, log: seq<Entry>, pid: nat)
    requires Legal(kinds, log)
    ensures Holder(log) == Some(pid) <==> HoldsLock(PcOf(kinds, log, pid))
    decreases |log|
  {
    if log != [] {
      LockIsHeld(kinds, log[..|log| - 1], pid);
      LockIsHeld(kinds, log[..|log| - 1], log[|log| - 1].pid);
    }
  }

  lemma {:induction false} LegalPrefix(kinds: nat -> Kind, log: seq<Entry>, i: nat)
    requires Legal(kinds, log) && i <= |log|
    ensures Legal(kinds, log[..i])
    ensures i < |log| ==> Allowed(kinds, log[..i], log[i])
    decreases |log|
  {
    if i == |log| {
      assert log[..i] == log;
    } else {
      var shorter := log[..|log| - 1];
      if i < |shorter| {
        LegalPrefix(kinds, shorter, i);
        assert shorter[..i] == log[..i];
      }
    }
  }

  /** Every recovery step, in every interleaving, is taken by the holder of the lock. */
  lemma RecoveryHoldsLock(kinds: nat -> Kind, log: seq<Entry>, i: nat)
    requires Legal(kinds, log) && i < |log| && log[i].deed.Did?
    ensures Holder(log[..i]) == Some(log[i].pid)
  {
    LegalPrefix(kinds, log, i);
    LockIsHeld(kinds, log[..i], log[i].pid);
  }

  lemma {:induction false} LockStays(kinds: nat -> Kind, log: seq<Entry>, i: nat, j: nat)
    requires Legal(kinds, log) && i < j <= |log| && log[i].deed.Took?
    requires forall k | i < k < j && log[k].pid == log[i].pid :: !log[k].deed.Left? && !log[k].deed.Died?
    ensures Holder(log[..j]) == Some(log[i].pid)
    decreases j
  {
    assert log[..j][..j - 1] == log[..j - 1];
    if i < j - 1 {
      LockStays(kinds, log, i, j - 1);
      LegalPrefix(kinds, log, j - 1);
    }
  }

  /** From the moment a process takes the lock until it leaves or dies, nobody else recovers
      anything: no rail is cycled under a running flash. */
  lemma NoRecoveryDuringRun(kinds: nat -> Kind, log: seq<Entry>, i: nat, j: nat)
    requires Legal(kinds, log) && i < j < |log| && log[i].deed.Took? && log[j].deed.Did?
    requires forall k | i < k < j && log[k].pid == log[i].pid :: !log[k].deed.Left? && !log[k].deed.Died?
    ensures log[j].pid == log[i].pid
  {
    LockStays(kinds, log, i, j);
    RecoveryHoldsLock(kinds, log, j);
  }

  // ---------------------------------------------------------------- waiting

  ghost predicate CanGoOn(kinds: nat -> Kind, log: seq<Entry>, pid: nat) {
    exists e: Deed :: !e.Died? && Allowed(kinds, log, Entry(pid, e))
  }

  predicate RungLeft(pc: Pc) {
    pc.Climbing? ==> pc.k < |Ladder(pc.level)|
  }

  lemma {:induction false} AlwaysARungLeft(kinds: nat -> Kind, log: seq<Entry>, pid: nat)
    requires Legal(kinds, log)
    ensures RungLeft(PcOf(kinds, log, pid))
    ensures kinds(pid).Watchdog? ==> !PcOf(kinds, log, pid).Working?
    ensures !kinds(pid).Watchdog? ==> PcOf(kinds, log, pid).Locking? || PcOf(kinds, log, pid).Climbing? || PcOf(kinds, log, pid).Working? || PcOf(kinds, log, pid).Leaving? || PcOf(kinds, log, pid).Gone?
    decreases |log|
  {
    if log != [] { AlwaysARungLeft(kinds, log[..|log| - 1], pid); }
  }

  function Ready(kinds: nat -> Kind, log: seq<Entry>, pid: nat): Deed {
    match PcOf(kinds, log, pid)
    case Start => Checked(true)
    case Locking => if Holder(log) == None then Took else Busy
    case Rechecking => Checked(true)
    case Climbing(level, k) => if k < |Ladder(level)| then Did(level, Ladder(level)[k]) else Died
    case Judging(_) => Checked(true)
    case Working => Worked
    case Leaving(v, _) => Left(ExitCode(kinds(pid), v))
    case Gone => Died
  }

  /** A watchdog always has a next step of its own, whoever holds the lock; any other process
      is held up exactly while it wants the lock and the lock is taken. */
  lemma WhoWaits(kinds: nat -> Kind, log: seq<Entry>, pid: nat)
    requires Legal(kinds, log) && !PcOf(kinds, log, pid).Gone?
    ensures CanGoOn(kinds, log, pid) <==>
            (kinds(pid).Watchdog? || !PcOf(kinds, log, pid).Locking? || Holder(log) == None)
  {
    AlwaysARungLeft(kinds, log, pid);
    var e := Ready(kinds, log, pid);
    if kinds(pid).Watchdog? || !PcOf(kinds, log, pid).Locking? || Holder(log) == None {
      assert !e.Died? && Allowed(kinds, log, Entry(pid, e));
    }
  }

  // ---------------------------------------------------------------- what a watchdog does

  /** The answers a watchdog may meet. */
  datatype Luck = Luck(first: bool, free: bool, second: bool, afterOne: bool, afterTwo: bool)

  /** Its whole life, given those answers. */
  function Life(down: bool, luck: Luck): seq<Deed> {
    var clean := Left(if down then 1 else 0);
    [Checked(luck.first)] +
    if luck.first then [clean]
    else if !luck.free then [Busy, clean]
    else
      [Took, Checked(luck.second)] +
      if luck.second then [clean] else Rescue(clean, luck)
  }

  /** From the failing check under the lock on. */
  function Rescue(clean: Deed, luck: Luck): seq<Deed> {
    Climb(1) + [Checked(luck.afterOne)] +
    if luck.afterOne then [clean]
    else Climb(2) + [Checked(luck.afterTwo), if luck.afterTwo then clean else Left(1)]
  }

  const FAILING := [Checked(false), Took, Checked(false)]

  ghost predicate PartOf(h: seq<Deed>, down: bool) {
    exists luck: Luck :: h <= Life(down, luck)
  }

  /** What has happened by the time a watchdog is at `pc`. */
  predicate Past(h: seq<Deed>, pc: Pc) {
    match pc
    case Start => h == []
    case Locking => h == [Checked(false)]
    case Rechecking => h == [Checked(false), Took]
    case Climbing(level, k) =>
      || (level == 1 && k == 0 && h == FAILING)
      || (level == 2 && k < 5 && h == FAILING + Climb(1) + [Checked(false)] + Climb(2)[..k])
    case Judging(level) =>
      || (level == 1 && h == FAILING + Climb(1))
      || (level == 2 && h == FAILING + Climb(1) + [Checked(false)] + Climb(2))
    case Working => false
    case Leaving(v, held) =>
      if v == StillUnhealthy then held && h == FAILING + Climb(1) + [Checked(false)] + Climb(2) + [Checked(false)]
      else if held then
        || h == [Checked(false), Took, Checked(true)]
        || h == FAILING + Climb(1) + [Checked(true)]
        || h == FAILING + Climb(1) + [Checked(false)] + Climb(2) + [Checked(true)]
      else h == [Checked(true)] || h == [Checked(false), Busy]
    case Gone => h != []
  }

  lemma PastGoesOn(down: bool, h: seq<Deed>, pc: Pc, e: Deed, next: Pc)
    requires Past(h, pc) && After(Watchdog(down), pc, e) == Some(next) && !next.Gone?
    ensures Past(h + [e], next)
  {
    assert Climb(1) == [Did(1, RestartBroker)];
    assert Climb(2)[..0] == [];
    if pc.Climbing? && pc.level == 2 {
      assert Climb(2)[..pc.k] + [e] == Climb(2)[..pc.k + 1];
      assert Climb(2)[..5] == Climb(2);
      var before := FAILING + Climb(1) + [Checked(false)];
      assert before + Climb(2)[..pc.k] + [e] == before + (Climb(2)[..pc.k] + [e]);
    }
  }

  lemma PastIsPart(down: bool, h: seq<Deed>, pc: Pc)
    requires Past(h, pc) && !pc.Gone?
    ensures PartOf(h, down)
  {
    var bad := Luck(false, true, false, false, false);
    var one, two := FAILING + Climb(1) + [Checked(false)], Climb(2);
    assert Life(down, bad) == one + two + [Checked(false), Left(1)] by { LifeUnhealthy(down, bad); }
    if pc.Climbing? && pc.level == 2 { assert one + two[..pc.k] <= one + two; }
    if pc.Leaving? && pc.verdict == Clean {
      PastIsPartClean(down, h, pc);
    } else {
      assert h <= Life(down, bad);
    }
  }

  lemma LifeUnhealthy(down: bool, luck: Luck)
    requires !luck.first && luck.free && !luck.second && !luck.afterOne
    ensures Life(down, luck) == FAILING + Climb(1) + [Checked(false)] + Climb(2) + [Checked(luck.afterTwo), Left(if luck.afterTwo && !down then 0 else 1)]
  {
    hide Climb;
  }

  lemma PastIsPartClean(down: bool, h: seq<Deed>, pc: Pc)
    requires Past(h, pc) && pc.Leaving? && pc.verdict == Clean
    ensures exists luck: Luck :: h + [Left(if down then 1 else 0)] == Life(down, luck)
    ensures PartOf(h, down)
  {
    hide Climb;
    var clean := Left(if down then 1 else 0);
    var luck :=
      if h == [Checked(true)] then Luck(true, true, true, true, true)
      else if h == [Checked(false), Busy] then Luck(false, false, true, true, true)
      else if h == [Checked(false), Took, Checked(true)] then Luck(false, true, true, true, true)
      else if h == FAILING + Climb(1) + [Checked(true)] then Luck(false, true, false, true, true)
      else Luck(false, true, false, false, true);
    if luck.afterTwo && !luck.afterOne { LifeUnhealthy(down, luck); }
    assert h + [clean] == Life(down, luck);
    assert h <= h + [clean];
  }

  lemma LeavingCompletes(down: bool, h: seq<Deed>, pc: Pc)
    requires Past(h, pc) && pc.Leaving?
    ensures exists luck: Luck :: h + [Left(ExitCode(Watchdog(down), pc.verdict))] == Life(down, luck)
  {
    if pc.verdict == Clean {
      PastIsPartClean(down, h, pc);
    } else {
      hide Climb;
      var bad := Luck(false, true, false, false, false);
      LifeUnhealthy(down, bad);
      assert h + [Left(1)] == Life(down, bad);
    }
  }

  /** In every interleaving, what a watchdog has done is the beginning of one of its lives (and
      if it has exited, all of it): no step before a failing check under the lock, level 2 only
      after a check that failed once level 1 was done, and nothing after a passing check. */
  lemma WatchdogLivesOneLife(kinds: nat -> Kind, log: seq<Entry>, pid: nat)
    requires Legal(kinds, log) && kinds(pid).Watchdog?
    ensures var h, down := Own(log, pid), kinds(pid).down;
            && Past(h, PcOf(kinds, log, pid))
            && (if h != [] && h[|h| - 1].Died? then PartOf(h[..|h| - 1], down) else PartOf(h, down))
            && (h != [] && h[|h| - 1].Left? ==> exists luck: Luck :: h == Life(down, luck))
  {
    hide Legal, Own, PcOf;
    OwnIsAccount(kinds, log, pid);
  }

  /** A watchdog's deeds so far and where they have taken it. */
  ghost predicate Account(h: seq<Deed>, pc: Pc, down: bool) {
    && Past(h, pc)
    && (if h != [] && h[|h| - 1].Died? then PartOf(h[..|h| - 1], down) else PartOf(h, down))
    && (h != [] && h[|h| - 1].Left? ==> exists luck: Luck :: h == Life(down, luck))
  }

  lemma {:induction false} OwnIsAccount(kinds: nat -> Kind, log: seq<Entry>, pid: nat)
    requires Legal(kinds, log) && kinds(pid).Watchdog?
    ensures Account(Own(log, pid), PcOf(kinds, log, pid), kinds(pid).down)
    decreases |log|
  {
    hide After, Account, Holder;
    if log == [] {
      AccountOpens(kinds(pid).down);
    } else {
      var shorter, last := log[..|log| - 1], log[|log| - 1];
      OwnIsAccount(kinds, shorter, pid);
      if last.pid == pid {
        AlwaysARungLeft(kinds, shorter, pid);
        AccountGoesOn(kinds(pid).down, Own(shorter, pid), PcOf(kinds, shorter, pid), last.deed);
      } else {
        assert Own(log, pid) == Own(shorter, pid);
      }
    }
  }

  lemma AccountOpens(down: bool)
    ensures Account([], Start, down)
  {
    hide Climb, Life, Past, PartOf;
    BornWithoutPast();
    PastIsPart(down, [], Start);
  }

  lemma AccountGoesOn(down: bool, h: seq<Deed>, pc: Pc, e: Deed)
    requires Account(h, pc, down) && !pc.Working? && After(Watchdog(down), pc, e).Some?
    ensures Account(h + [e], After(Watchdog(down), pc, e).value, down)
  {
    hide Climb, Life, Past, PartOf;
    var next := After(Watchdog(down), pc, e).value;
    assert (h + [e])[..|h|] == h;
    if next.Gone? {
      GoneHasPast(h + [e]);
      if e.Died? {
        PastIsPart(down, h, pc);
      } else {
        LeavingCompletes(down, h, pc);
        WholeIsPart(h + [e], down);
      }
    } else {
      PastGoesOn(down, h, pc, e, next);
      PastIsPart(down, h + [e], next);
    }
  }

  lemma BornWithoutPast()
    ensures Past([], Start)
  {}

  lemma GoneHasPast(h: seq<Deed>)
    requires h != []
    ensures Past(h, Gone)
  {}

  lemma WholeIsPart(h: seq<Deed>, down: bool)
    requires exists luck: Luck :: h == Life(down, luck)
    ensures PartOf(h, down)
  {
    hide Life;
  }

  /** Deeds one after another, from `pc`. */
  function Follow(kind: Kind, pc: Pc, deeds: seq<Deed>): Option<Pc>
    decreases |deeds|
  {
    if deeds == [] then Some(pc)
    else match After(kind, pc, deeds[0])
      case None => None
      case Some(next) => Follow(kind, next, deeds[1..])
  }

  lemma {:induction false} FollowConcat(kind: Kind, pc: Pc, a: seq<Deed>, b: seq<Deed>, mid: Pc)
    requires Follow(kind, pc, a) == Some(mid)
    ensures Follow(kind, pc, a + b) == Follow(kind, mid, b)
    decreases |a|
  {
    hide After;
    if a == [] {
      assert a + b == b;
    } else {
      assert (a + b)[1..] == a[1..] + b;
      FollowConcat(kind, After(kind, pc, a[0]).value, a[1..], b, mid);
    }
  }

  lemma {:induction false} ClimbFollows(kind: Kind, level: int, k: nat)
    requires kind.Watchdog? && k < |Ladder(level)|
    ensures Follow(kind, Climbing(level, k), Climb(level)[k..]) == Some(Judging(level))
    decreases |Ladder(level)| - k
  {
    var rest := Climb(level)[k..];
    assert rest[0] == Did(level, Ladder(level)[k]) && rest[1..] == Climb(level)[k + 1..];
    if k + 1 < |Ladder(level)| {
      ClimbFollows(kind, level, k + 1);
    } else {
      assert rest[1..] == [];
    }
  }

  /** Each of the lives is one the program can live, to its end. */
  lemma LifeIsPossible(down: bool, luck: Luck)
    ensures Follow(Watchdog(down), Start, Life(down, luck)) == Some(Gone)
  {
    hide Climb;
    var w, clean := Watchdog(down), Left(if down then 1 else 0);
    if !luck.first && luck.free && !luck.second {
      RescueFollows(down, luck);
      var rescue := Rescue(clean, luck);
      assert Life(down, luck) == FAILING + rescue;
      FailingFollows(w);
      FollowConcat(w, Start, FAILING, rescue, Climbing(1, 0));
    } else {
      var life := Life(down, luck);
      assert |life| <= 4;
      FollowShort(w, life);
    }
  }

  lemma FailingFollows(kind: Kind)
    requires kind.Watchdog?
    ensures Follow(kind, Start, FAILING) == Some(Climbing(1, 0))
  {
    assert FAILING[1..] == [Took, Checked(false)] && FAILING[1..][1..] == [Checked(false)] && FAILING[1..][1..][1..] == [];
    assert Follow(kind, Rechecking, [Checked(false)]) == Some(Climbing(1, 0));
  }

  /** A short list of deeds, unrolled. */
  lemma FollowShort(kind: Kind, h: seq<Deed>)
    requires kind.Watchdog?
    requires exists luck: Luck :: (luck.first || !luck.free || luck.second) && h == Life(kind.down, luck)
    ensures Follow(kind, Start, h) == Some(Gone)
  {
    hide Climb;
    var clean := Left(if kind.down then 1 else 0);
    assert h == [Checked(true), clean] || h == [Checked(false), Busy, clean] || h == [Checked(false), Took, Checked(true), clean];
    assert Follow(kind, Leaving(Clean, false), [clean]) == Some(Gone) && Follow(kind, Leaving(Clean, true), [clean]) == Some(Gone);
    if h == [Checked(true), clean] {
      assert h[1..] == [clean];
    } else if h == [Checked(false), Busy, clean] {
      assert h[1..] == [Busy, clean] && h[1..][1..] == [clean];
    } else {
      assert h[1..] == [Took, Checked(true), clean] && h[1..][1..] == [Checked(true), clean] && h[1..][1..][1..] == [clean];
      assert Follow(kind, Rechecking, [Checked(true), clean]) == Some(Gone);
    }
  }

  lemma FollowTwo(kind: Kind, pc: Pc, d: Deed, e: Deed)
    requires After(kind, pc, d).Some? && After(kind, After(kind, pc, d).value, e).Some?
    ensures Follow(kind, pc, [d, e]) == After(kind, After(kind, pc, d).value, e)
  {
    hide After;
    assert [d, e][1..] == [e];
    FollowStep(kind, After(kind, pc, d).value, e, []);
  }

  lemma FollowStep(kind: Kind, pc: Pc, e: Deed, rest: seq<Deed>)
    requires After(kind, pc, e).Some?
    ensures Follow(kind, pc, [e] + rest) == Follow(kind, After(kind, pc, e).value, rest)
    ensures rest == [] ==> Follow(kind, pc, [e]) == After(kind, pc, e)
  {
    hide After;
    assert ([e] + rest)[1..] == rest;
    assert rest == [] ==> [e] + rest == [e];
  }

  lemma SecondRescueFollows(down: bool, luck: Luck)
    ensures var clean := Left(if down then 1 else 0);
            Follow(Watchdog(down), Climbing(2, 0), Climb(2) + [Checked(luck.afterTwo), if luck.afterTwo then clean else Left(1)]) == Some(Gone)
  {
    var w, clean := Watchdog(down), Left(if down then 1 else 0);
    ClimbFollows(w, 2, 0);
    assert Climb(2)[0..] == Climb(2);
    hide Climb, Ladder, Follow;
    var last := [Checked(luck.afterTwo), if luck.afterTwo then clean else Left(1)];
    FollowTwo(w, Judging(2), last[0], last[1]);
    FollowConcat(w, Climbing(2, 0), Climb(2), last, Judging(2));
  }

  lemma RescueFollows(down: bool, luck: Luck)
    ensures Follow(Watchdog(down), Climbing(1, 0), Rescue(Left(if down then 1 else 0), luck)) == Some(Gone)
  {
    var w, clean := Watchdog(down), Left(if down then 1 else 0);
    ClimbFollows(w, 1, 0);
    assert Climb(1)[0..] == Climb(1);
    hide Climb, Ladder, Follow;
    SecondRescueFollows(down, luck);
    var rest := if luck.afterOne then [clean] else Climb(2) + [Checked(luck.afterTwo), if luck.afterTwo then clean else Left(1)];
    var tail := [Checked(luck.afterOne)] + rest;
    FollowStep(w, Judging(1), Checked(luck.afterOne), rest);
    FollowStep(w, Leaving(Clean, true), clean, []);
    FollowConcat(w, Climbing(1, 0), Climb(1), tail, Judging(1));
    assert Rescue(clean, luck) == Climb(1) + tail;
  }

  // ---------------------------------------------------------------- runner state

  ghost predicate SameButRunners(a: nat -> Kind, b: nat -> Kind) {
    forall p: nat :: a(p) == b(p) || (a(p).Watchdog? && b(p).Watchdog?)
  }

  predicate SameButCodes(a: seq<Entry>, b: seq<Entry>) {
    && |a| == |b|
    && forall i | 0 <= i < |a| :: a[i].pid == b[i].pid && (a[i].deed == b[i].deed || (a[i].deed.Left? && b[i].deed.Left?))
  }

  /** The same log with the exit codes that other runner states give. */
  function Recoded(a: nat -> Kind, b: nat -> Kind, log: seq<Entry>): seq<Entry> {
    if log == [] then [] else
      var shorter, last := log[..|log| - 1], log[|log| - 1];
      var pc := PcOf(a, shorter, last.pid);
      Recoded(a, b, shorter) +
      [if last.deed.Left? && pc.Leaving? then Entry(last.pid, Left(ExitCode(b(last.pid), pc.verdict))) else last]
  }

  lemma AfterIsSame(a: Kind, b: Kind, pc: Pc, e: Deed)
    requires a == b || (a.Watchdog? && b.Watchdog?)
    requires After(a, pc, e).Some?
    ensures After(b, pc, if e.Left? && pc.Leaving? then Left(ExitCode(b, pc.verdict)) else e) == After(a, pc, e)
  {}

  lemma RecodedLast(a: nat -> Kind, b: nat -> Kind, log: seq<Entry>)
    requires log != []
    ensures var other, shorter := Recoded(a, b, log), Recoded(a, b, log[..|log| - 1]);
            && |other| == |shorter| + 1 && other[..|shorter|] == shorter
            && other[|shorter|].pid == log[|log| - 1].pid
  {
    hide PcOf, ExitCode;
  }

  lemma {:induction false} RecodedHolder(a: nat -> Kind, b: nat -> Kind, log: seq<Entry>)
    ensures Holder(Recoded(a, b, log)) == Holder(log)
    decreases |log|
  {
    hide PcOf, ExitCode;
    if log != [] {
      RecodedHolder(a, b, log[..|log| - 1]);
      RecodedLast(a, b, log);
    }
  }

  lemma {:induction false} RecodedPc(a: nat -> Kind, b: nat -> Kind, log: seq<Entry>, p: nat)
    requires SameButRunners(a, b) && Legal(a, log)
    ensures PcOf(b, Recoded(a, b, log), p) == PcOf(a, log, p)
    decreases |log|
  {
    hide After, Holder, ExitCode;
    if log != [] {
      var shorter, last := log[..|log| - 1], log[|log| - 1];
      RecodedPc(a, b, shorter, p);
      RecodedLast(a, b, log);
      assert a(p) == b(p) || (a(p).Watchdog? && b(p).Watchdog?);
      if last.pid == p { AfterIsSame(a(p), b(p), PcOf(a, shorter, p), last.deed); }
    }
  }

  lemma {:induction false} RecodedSame(a: nat -> Kind, b: nat -> Kind, log: seq<Entry>)
    ensures SameButCodes(log, Recoded(a, b, log))
    decreases |log|
  {
    hide PcOf, ExitCode;
    if log != [] {
      RecodedSame(a, b, log[..|log| - 1]);
      RecodedLast(a, b, log);
    }
  }

  lemma {:induction false} RecodedLegal(a: nat -> Kind, b: nat -> Kind, log: seq<Entry>)
    requires SameButRunners(a, b) && Legal(a, log)
    ensures Legal(b, Recoded(a, b, log))
    decreases |log|
  {
    hide SameButRunners, Allowed, PcOf, ExitCode;
    if log != [] {
      var shorter := log[..|log| - 1];
      RecodedLegal(a, b, shorter);
      RecodedLast(a, b, log);
      RecodedAllowed(a, b, log);
    }
  }

  lemma RecodedAllowed(a: nat -> Kind, b: nat -> Kind, log: seq<Entry>)
    requires log != [] && SameButRunners(a, b) && Legal(a, log)
    ensures var other := Recoded(a, b, log); other != [] && Allowed(b, Recoded(a, b, log[..|log| - 1]), other[|other| - 1])
  {
    hide After, Holder, PcOf, ExitCode;
    var shorter, last := log[..|log| - 1], log[|log| - 1];
    var p := last.pid;
    RecodedHolder(a, b, shorter);
    RecodedPc(a, b, shorter, p);
    assert a(p) == b(p) || (a(p).Watchdog? && b(p).Watchdog?);
    AfterIsSame(a(p), b(p), PcOf(a, shorter, p), last.deed);
  }

  /** Whether runners are up or down changes exit codes and nothing else: the same interleaving
      is possible with the same checks, locks and recovery steps. */
  lemma RunnerOnlySetsExitCode(a: nat -> Kind, b: nat -> Kind, log: seq<Entry>)
    requires SameButRunners(a, b) && Legal(a, log)
    ensures Legal(b, Recoded(a, b, log)) && SameButCodes(log, Recoded(a, b, log))
    ensures Holder(Recoded(a, b, log)) == Holder(log)
    ensures forall p: nat :: PcOf(b, Recoded(a, b, log), p) == PcOf(a, log, p)
  {
    hide SameButRunners, Legal, SameButCodes, Recoded, Holder, PcOf;
    RecodedLegal(a, b, log);
    RecodedSame(a, b, log);
    RecodedHolder(a, b, log);
    forall p: nat ensures PcOf(b, Recoded(a, b, log), p) == PcOf(a, log, p) { RecodedPc(a, b, log, p); }
  }

  // ---------------------------------------------------------------- the watchdog program

  /** One invocation, against the answers it will meet. */
  class Watch {
    const luck: Luck
    var deeds: seq<Deed>
    var rig: Rig

    constructor (luck: Luck, rig: Rig)
      ensures this.luck == luck && deeds == [] && this.rig == rig
    {
      this.luck, deeds, this.rig := luck, [], rig;
    }

    method Check(healthy: bool) returns (ok: bool)
      modifies this`deeds
      ensures ok == healthy && deeds == old(deeds) + [Checked(healthy)]
    {
      ok, deeds := healthy, deeds + [Checked(healthy)];
    }

    /** One step, which succeeds. */
    method Do(level: int, rung: Rung)
      modifies this`deeds, this`rig
      ensures deeds == old(deeds) + [Did(level, rung)] && rig == Effect(old(rig), rung)
    {
      deeds, rig := deeds + [Did(level, rung)], Effect(rig, rung);
    }

    /** One rung of the ladder; the outcome of a step never stops the next. */
    method Recover(level: int)
      modifies this`deeds, this`rig
      ensures deeds == old(deeds) + Climb(level) && rig == Recovered(old(rig), Climb(level))
      ensures level >= 2 ==> Rebuilt(rig, old(rig).now)
      ensures level <= 1 ==> rig == old(rig).(now := old(rig).now + 1, broker := old(rig).now)
      ensures rig.now > old(rig).now
    {
      if level >= 2 { LevelTwoSteps(rig, level); } else { LevelOneRestartsBroker(rig, level); }
      if level <= 1 {
        Do(level, RestartBroker);
        return;
      }
      Do(level, PsuCycle);
      Do(level, UnloadCan);
      Do(level, LoadCan);
      Do(level, CanUp);
      Do(level, RestartBroker);
    }

    method Leave(code: int) returns (c: int)
      modifies this`deeds
      ensures c == code && deeds == old(deeds) + [Left(code)]
    {
      c, deeds := code, deeds + [Left(code)];
    }

    /** Level 1, then level 2, with a check after each. */
    method RunLadder(clean: int) returns (code: int)
      modifies this`deeds, this`rig
      ensures !luck.afterOne ==> Rebuilt(rig, old(rig).now)
      ensures deeds == old(deeds) + Rescue(Left(clean), luck)
      ensures deeds[|deeds| - 1] == Left(code)
    {
      hide Climb;
      ghost var was := deeds;
      for level := 1 to 3
        invariant level == 1 ==> deeds == was
        invariant level == 2 ==> deeds == was + (Climb(1) + [Checked(false)]) && !luck.afterOne
        invariant rig.now >= old(rig).now && (level == 3 ==> Rebuilt(rig, old(rig).now))
        invariant level == 3 ==> deeds == was + (Climb(1) + [Checked(false)] + Climb(2) + [Checked(false)]) && !luck.afterOne && !luck.afterTwo
      {
        Recover(level);
        var ok := Check(if level == 1 then luck.afterOne else luck.afterTwo);
        if ok { code := Leave(clean); return; }
      }
      code := Leave(1);
    }

    method Run(units: seq<bool>) returns (code: int)
      requires deeds == []
      modifies this`deeds, this`rig
      ensures deeds == Life(false in units, luck)
      ensures deeds[|deeds| - 1] == Left(code)
    {
      var down := false in units;
      var clean := if down then 1 else 0;
      var ok := Check(luck.first);
      if ok { code := Leave(clean); return; }
      if !luck.free {
        deeds := deeds + [Busy];
        code := Leave(clean);
        return;
      }
      deeds := deeds + [Took];
      ok := Check(luck.second);
      if ok { code := Leave(clean); return; }
      assert deeds == FAILING;
      code := RunLadder(clean);
      assert deeds == [Checked(false)] + ([Took, Checked(false)] + Rescue(Left(clean), luck));
    }
  }
}
