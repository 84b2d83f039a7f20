/** Broker threads on the shared I2C bus (broker/bus.py). A driver call is several bus
    transactions; other threads run between any two of them. The bus lock makes every
    interleaving equal to the calls done one after another, in lock order, and equal to
    the in-memory backend's atomic operations (broker/fake_bus.py) where the two agree. */
module Broker {
  import opened Wrappers
  import opened RelayExpander

  // ---------------------------------------------------------------- threads

  datatype Phase =
    | Idle
    | Waiting(addr: int, op: Op)
    | Inside(addr: int, op: Op, pc: nat, seen: Bits, level: Ports)

  /** A finished call: what it asked, the pin levels it met and how its transactions fared. */
  datatype Done = Done(thread: nat, addr: int, op: Op, level: Ports, faults: seq<bool>, result: Outcome<Bits>)

  datatype Sys = Sys(chips: map<int, Chip>, lock: Option<nat>, threads: map<nat, Phase>, done: seq<Done>) {
    function Of(t: nat): Phase { if t in threads then threads[t] else Idle }
    function Move(t: nat, p: Phase): Sys { this.(threads := threads[t := p]) }
  }

  datatype Event =
    | Enter(thread: nat, addr: int, op: Op)
    | Acquire(thread: nat)
    | Transact(thread: nat, ok: bool, level: Ports)

  function Clean(n: nat): seq<bool> { seq(n, _ => false) }

  /** Leaving the `with` block, normally or by an exception. */
  function Leave(s: Sys, t: nat, p: Phase, faults: seq<bool>, result: Outcome<Bits>): Sys
    requires p.Inside?
  {
    s.(lock := None, threads := s.threads[t := Idle], done := s.done + [Done(t, p.addr, p.op, p.level, faults, result)])
  }

  /** One thread's next move. A thread inside the block never looks at the lock again, and
      `locked` says whether it had to take it on the way in. An event that the thread is not
      ready for leaves everything as it was. */
  function Step(s: Sys, e: Event, locked: bool): Sys {
    match e
    case Enter(t, addr, op) =>
      if s.Of(t).Idle? then s.Move(t, Waiting(addr, op)) else s
    case Acquire(t) =>
      var p := s.Of(t);
      if p.Waiting? && (!locked || s.lock.None?)
      then s.Move(t, Inside(p.addr, p.op, 0, {}, Ports({}, {}))).(lock := Some(t)) else s
    case Transact(t, ok, level) =>
      var p := s.Of(t);
      if !p.Inside? then s
      else if p.addr !in s.chips then s.Move(t, Idle).(lock := None)
      else
        var q := if p.pc == 0 then p.(level := level) else p;
        var chip := s.chips[p.addr];
        match Next(p.op, p.pc, p.seen)
        case Finish(v) => Leave(s, t, q, Clean(p.pc), Ok(v))
        case Fail => Leave(s, t, q, Clean(p.pc), Raised)
        case Fetch(reg) =>
          if !ok then Leave(s, t, q, Clean(p.pc) + [true], Raised)
          else s.Move(t, q.(pc := p.pc + 1, seen := chip.Get(reg, q.level.At(reg.port))))
        case Store(reg, v) =>
          if !ok then Leave(s, t, q, Clean(p.pc) + [true], Raised)
          else s.Move(t, q.(pc := p.pc + 1, seen := {})).(chips := s.chips[p.addr := chip.Put(reg, v)])
  }

  function Run(s: Sys, events: seq<Event>, locked: bool): Sys {
    if events == [] then s
    else Step(Run(s, events[..|events| - 1], locked), events[|events| - 1], locked)
  }

  // ---------------------------------------------------------------- one after another

  function Apply(chips: map<int, Chip>, d: Done): map<int, Chip> {
    if d.addr in chips then chips[d.addr := Call(d.op, chips[d.addr], d.level, d.faults).chip] else chips
  }

  function Replay(start: map<int, Chip>, done: seq<Done>): map<int, Chip> {
    if done == [] then start else Apply(Replay(start, done[..|done| - 1]), done[|done| - 1])
  }

  /** Each call returned what it returns when it runs alone in its turn. */
  predicate Honest(start: map<int, Chip>, done: seq<Done>) {
    forall i | 0 <= i < |done| ::
      var d, chips := done[i], Replay(start, done[..i]);
      d.addr in chips && d.result == Call(d.op, chips[d.addr], d.level, d.faults).result
  }

  // ---------------------------------------------------------------- a call half done

  /** The chip and the last value read after `pc` undisturbed transactions. */
  function Progress(op: Op, chip: Chip, level: Ports, pc: nat): (Chip, Bits) {
    if pc == 0 then (chip, {}) else
      var (c, seen) := Progress(op, chip, level, pc - 1);
      match Next(op, pc - 1, seen)
      case Fetch(reg) => (c, c.Get(reg, level.At(reg.port)))
      case Store(reg, v) => (c.Put(reg, v), {})
      case _ => (c, seen)
  }

  predicate Reaches(op: Op, chip: Chip, level: Ports, pc: nat) {
    forall k: nat | k < pc ::
      var act := Next(op, k, Progress(op, chip, level, k).1);
      act.Fetch? || act.Store?
  }

  lemma {:induction false} ExecSplit(op: Op, chip: Chip, level: Ports, pc: nat, rest: seq<bool>)
    requires Reaches(op, chip, level, pc)
    ensures var (c, seen) := Progress(op, chip, level, pc);
            Call(op, chip, level, Clean(pc) + rest) == Exec(op, pc, seen, c, level, rest)
    decreases pc
  {
    if pc == 0 {
      assert Clean(0) + rest == rest;
    } else {
      assert Clean(pc) + rest == Clean(pc - 1) + ([false] + rest);
      ExecSplit(op, chip, level, pc - 1, [false] + rest);
      var (c, seen) := Progress(op, chip, level, pc - 1);
      var act := Next(op, pc - 1, seen);
      assert ([false] + rest)[1..] == rest;
    }
  }

  // ---------------------------------------------------------------- the invariant

  /** No thread but `t` is past the lock. */
  predicate Alone(s: Sys, t: nat) {
    forall u | u in s.threads && u != t :: !s.threads[u].Inside?
  }

  predicate Serial(start: map<int, Chip>, s: Sys) {
    var base := Replay(start, s.done);
    && Honest(start, s.done)
    && match s.lock
       case None => s.chips == base && forall u | u in s.threads :: !s.threads[u].Inside?
       case Some(t) =>
         && t in s.threads && s.threads[t].Inside? && Alone(s, t)
         && var p := s.threads[t];
            if p.addr !in base then p.pc == 0 && s.chips == base
            else
              && s.chips == base[p.addr := Progress(p.op, base[p.addr], p.level, p.pc).0]
              && p.seen == Progress(p.op, base[p.addr], p.level, p.pc).1
              && Reaches(p.op, base[p.addr], p.level, p.pc)
  }

  lemma LeaveKeepsSerial(start: map<int, Chip>, s: Sys, t: nat, q: Phase, faults: seq<bool>, result: Outcome<Bits>)
    requires q.Inside? && Honest(start, s.done) && Alone(s, t)
    requires var base := Replay(start, s.done);
             && q.addr in base
             && Call(q.op, base[q.addr], q.level, faults).result == result
             && s.chips == base[q.addr := Call(q.op, base[q.addr], q.level, faults).chip]
    ensures Serial(start, Leave(s, t, q, faults, result))
  {
    var n := Leave(s, t, q, faults, result);
    assert n.done[..|n.done| - 1] == s.done;
    assert Replay(start, n.done) == n.chips;
    forall i | 0 <= i < |n.done|
      ensures n.done[i].addr in Replay(start, n.done[..i])
      ensures n.done[i].result == Call(n.done[i].op, Replay(start, n.done[..i])[n.done[i].addr], n.done[i].level, n.done[i].faults).result
    {
      if i < |s.done| {
        assert n.done[..i] == s.done[..i] && n.done[i] == s.done[i];
      } else {
        assert n.done[..i] == s.done;
      }
    }
  }

  lemma TransactKeepsSerial(start: map<int, Chip>, s: Sys, t: nat, ok: bool, level: Ports)
    requires Serial(start, s) && s.Of(t).Inside? && s.Of(t).addr in s.chips
    ensures Serial(start, Step(s, Transact(t, ok, level), true))
  {
    hide Honest, Exec, Next;
    assert s.lock == Some(t);
    var base, p := Replay(start, s.done), s.Of(t);
    var q := if p.pc == 0 then p.(level := level) else p;
    var chip0 := base[p.addr];
    assert p.addr in base;
    assert Progress(p.op, chip0, q.level, p.pc) == (s.chips[p.addr], p.seen);
    assert Reaches(p.op, chip0, q.level, p.pc);
    var act := Next(p.op, p.pc, p.seen);
    var faults := if act.Finish? || act.Fail? then Clean(p.pc) else Clean(p.pc) + [true];
    if act.Finish? || act.Fail? || !ok {
      CallEnds(p.op, chip0, q.level, p.pc, act);
      var result := if act.Finish? then Ok(act.result) else Raised;
      assert s.chips == base[p.addr := Call(p.op, chip0, q.level, faults).chip];
      LeaveKeepsSerial(start, s, t, q, faults, result);
    } else {
      var n := Step(s, Transact(t, ok, level), true);
      assert n.chips == base[p.addr := Progress(p.op, chip0, q.level, p.pc + 1).0];
      assert n.threads[t].seen == Progress(p.op, chip0, q.level, p.pc + 1).1;
      assert Reaches(p.op, chip0, q.level, p.pc + 1);
    }
  }

  /** A call that ends, or is cut off, after `pc` transactions is the call run alone. */
  lemma CallEnds(op: Op, chip: Chip, level: Ports, pc: nat, act: Act)
    requires Reaches(op, chip, level, pc)
    requires act == Next(op, pc, Progress(op, chip, level, pc).1)
    ensures var faults := if act.Finish? || act.Fail? then Clean(pc) else Clean(pc) + [true];
            var ran := Call(op, chip, level, faults);
            && ran.chip == Progress(op, chip, level, pc).0
            && ran.result == if act.Finish? then Ok(act.result) else Raised
  {
    if act.Finish? || act.Fail? {
      ExecSplit(op, chip, level, pc, []);
      assert Clean(pc) + [] == Clean(pc);
    } else {
      ExecSplit(op, chip, level, pc, [true]);
    }
  }

  lemma StepKeepsSerial(start: map<int, Chip>, s: Sys, e: Event)
    requires Serial(start, s)
    ensures Serial(start, Step(s, e, true))
  {
    hide Honest, Exec, Next;
    match e
    case Enter(t, addr, op) =>
    case Acquire(t) =>
      var p := s.Of(t);
      if p.Waiting? && s.lock.None? {
        var base := Replay(start, s.done);
        if p.addr in base {
          assert base[p.addr := base[p.addr]] == base;
        }
      }
    case Transact(t, ok, level) =>
      if s.Of(t).Inside? {
        if s.Of(t).addr in s.chips {
          TransactKeepsSerial(start, s, t, ok, level);
        }
      }
  }

  function Boot(chips: map<int, Chip>): Sys { Sys(chips, None, map[], []) }

  /** Every interleaving of any number of threads: whenever the lock is free the chips hold
      exactly what the finished calls leave when run one after another in lock order, and
      each of those calls returned what it returns when run alone. */
  lemma {:induction false} EveryInterleavingIsSerial(start: map<int, Chip>, events: seq<Event>)
    ensures Serial(start, Run(Boot(start), events, true))
    decreases |events|
  {
    if events != [] {
      EveryInterleavingIsSerial(start, events[..|events| - 1]);
      StepKeepsSerial(start, Run(Boot(start), events[..|events| - 1], true), events[|events| - 1]);
    }
  }

  /** At most one thread is past the lock, and it is the one that holds it. */
  lemma InsideHoldsLock(start: map<int, Chip>, events: seq<Event>, t: nat)
    requires Run(Boot(start), events, true).Of(t).Inside?
    ensures Run(Boot(start), events, true).lock == Some(t)
  {
    EveryInterleavingIsSerial(start, events);
  }

  // ---------------------------------------------------------------- no update is lost

  predicate Passed(faults: seq<bool>, n: nat) {
    forall k | 0 <= k < n && k < |faults| :: !faults[k]
  }

  /** What a finished call says about one output bit, if it says anything: the request alone
      decides, and whether its transactions went through. */
  function Says(d: Done, addr: int, port: int, b: nat): Option<bool> {
    if d.addr != addr then None else
      match d.op
      case WritePort(p, v) => if (p == 0) == (port == 0) && Passed(d.faults, 1) then Some(b in v) else None
      case WriteAll(v0, v1) =>
        if port == 0 then (if Passed(d.faults, 1) then Some(b in v0) else None)
        else if Passed(d.faults, 2) then Some(b in v1) else None
      case WritePin(p, pin, state) =>
        if (p == 0) == (port == 0) && pin == b && Passed(d.faults, 2) then Some(state) else None
      case _ => None
  }

  /** The last word on an output bit. */
  function Latest(done: seq<Done>, addr: int, port: int, b: nat, initially: bool): bool {
    if done == [] then initially else
      match Says(done[|done| - 1], addr, port, b)
      case Some(v) => v
      case None => Latest(done[..|done| - 1], addr, port, b, initially)
  }

  lemma SaysNothing(d: Done, addr: int, port: int, b: nat)
    requires d.addr != addr
    ensures Says(d, addr, port, b) == None
  {}

  lemma CallSays(d: Done, chip: Chip, port: int, b: nat)
    requires b < 8 && ByteWide(chip)
    ensures var after := Call(d.op, chip, d.level, d.faults).chip;
            (b in after.output.At(port)) == match Says(d, d.addr, port, b) case Some(v) => v case None => b in chip.output.At(port)
  {
    var f := d.faults;
    assert Fault(f) == (|f| > 0 && f[0]) && Fault(Tail(f)) == (|f| > 1 && f[1]);
    match d.op
    case WritePin(p, pin, state) =>
      PinWriteIsLocal(p, pin, state, chip, d.level, f);
      PinWriteOutcome(p, pin, state, chip, d.level, f);
    case WriteAll(v0, v1) =>
      assert Call(d.op, chip, d.level, f).chip.output ==
        if Fault(f) then chip.output
        else if Fault(Tail(f)) then chip.output.With(0, LowByte(v0))
        else Ports(LowByte(v0), LowByte(v1)) by { WriteAllUnfolds(v0, v1, chip, d.level, f); }
    case SetAll(ins) => SetAllKeepsOutputs(ins, chip, d.level, f);
    case _ =>
  }

  lemma PinWriteOutcome(port: int, pin: int, state: bool, chip: Chip, level: Ports, f: seq<bool>)
    ensures Call(WritePin(port, pin, state), chip, level, f).result.Ok? <==> pin >= 0 && !Fault(f) && !Fault(Tail(f))
  {
    var op, cur := WritePin(port, pin, state), chip.output.At(port);
    if pin >= 0 && !Fault(f) && !Fault(Tail(f)) {
      assert Exec(op, 1, cur, chip, level, Tail(f)).result.Ok?;
    }
  }

  lemma WriteAllUnfolds(v0: Bits, v1: Bits, chip: Chip, level: Ports, f: seq<bool>)
    ensures Call(WriteAll(v0, v1), chip, level, f).chip ==
            if Fault(f) then chip
            else if Fault(Tail(f)) then chip.Put(Output(0), v0)
            else chip.Put(Output(0), v0).Put(Output(1), v1)
  {
    if !Fault(f) && !Fault(Tail(f)) {
      var c := chip.Put(Output(0), v0);
      assert Exec(WriteAll(v0, v1), 1, {}, c, level, Tail(f)).chip == c.Put(Output(1), v1);
    }
  }

  lemma SetAllKeepsOutputs(ins: bool, chip: Chip, level: Ports, f: seq<bool>)
    ensures Call(SetAll(ins), chip, level, f).chip.output == chip.output
  {
    var c := chip.Put(Config(0), if ins then ALL_ONES else {});
    assert Exec(SetAll(ins), 1, {}, c, level, Tail(f)).chip.output == chip.output;
  }

  lemma {:induction false} ReplayByteWide(start: map<int, Chip>, done: seq<Done>)
    requires forall a | a in start :: ByteWide(start[a])
    ensures Replay(start, done).Keys == start.Keys
    ensures forall a | a in start :: ByteWide(Replay(start, done)[a])
    decreases |done|
  {
    if done != [] {
      var before, d := Replay(start, done[..|done| - 1]), done[|done| - 1];
      ReplayByteWide(start, done[..|done| - 1]);
      if d.addr in before {
        StaysByteWide(d.op, 0, {}, before[d.addr], d.level, d.faults);
      }
    }
  }

  lemma {:induction false} ReplayIsLatest(start: map<int, Chip>, done: seq<Done>, addr: int, port: int, b: nat)
    requires forall a | a in start :: ByteWide(start[a])
    requires addr in start && b < 8
    ensures Replay(start, done).Keys == start.Keys
    ensures (b in Replay(start, done)[addr].output.At(port)) == Latest(done, addr, port, b, b in start[addr].output.At(port))
    decreases |done|
  {
    hide Exec, Says;
    if done != [] {
      var shorter, d := done[..|done| - 1], done[|done| - 1];
      var before := Replay(start, shorter);
      ReplayIsLatest(start, shorter, addr, port, b);
      ReplayByteWide(start, shorter);
      assert addr in before;
      if d.addr == addr {
        CallSays(d, before[addr], port, b);
      } else {
        assert Replay(start, done)[addr] == before[addr];
        SaysNothing(d, addr, port, b);
      }
    }
  }

  /** In every interleaving, once the lock is free each output bit is what the last call to
      address it asked for: no pin or port update is lost. */
  lemma NoUpdateLost(start: map<int, Chip>, events: seq<Event>, addr: int, port: int, b: nat)
    requires forall a | a in start :: ByteWide(start[a])
    requires addr in start && b < 8
    requires Run(Boot(start), events, true).lock == None
    ensures var s := Run(Boot(start), events, true);
            addr in s.chips &&
            (b in s.chips[addr].output.At(port)) == Latest(s.done, addr, port, b, b in start[addr].output.At(port))
  {
    EveryInterleavingIsSerial(start, events);
    ReplayIsLatest(start, Run(Boot(start), events, true).done, addr, port, b);
  }

  // ---------------------------------------------------------------- the in-memory backend

  /** The fake backend's operation: atomic, and without a chip behind it. */
  function Fake(op: Op, chip: Chip): (Chip, Outcome<Bits>) {
    match op
    case ReadPort(p) => (chip, Ok(chip.output.At(p)))
    case GetDirection(p) => (chip, Ok(chip.config.At(p)))
    case SetDirection(p, m) => (chip.(config := chip.config.With(p, LowByte(m))), Ok({}))
    case SetAll(ins) => (chip.(config := if ins then Ports(ALL_ONES, ALL_ONES) else Ports({}, {})), Ok({}))
    case WritePort(p, v) => (chip.(output := chip.output.With(p, LowByte(v))), Ok({}))
    case WriteAll(v0, v1) => (chip.(output := Ports(LowByte(v0), LowByte(v1))), Ok({}))
    case WritePin(p, pin, state) =>
      if pin < 0 then (chip, Raised) else
        var cur := chip.output.At(p);
        (chip.(output := chip.output.With(p, if state then cur + {pin} else cur - {pin})), Ok({}))
  }

  predicate WithinByte(op: Op) {
    op.WritePin? ==> op.pin < 8 || !op.state
  }

  /** Undisturbed and without faults, a call leaves what the fake leaves if and only if it
      does not set a pin the register has no bit for. */
  lemma AgreesWithFake(op: Op, chip: Chip, level: Ports)
    requires ByteWide(chip)
    ensures Call(op, chip, level, []).chip == Fake(op, chip).0 <==> WithinByte(op)
    ensures !op.ReadPort? ==> Call(op, chip, level, []).result == Fake(op, chip).1
    ensures op.ReadPort? ==>
      (Call(op, chip, level, []).result == Fake(op, chip).1
       <==> OutsideAgrees(chip, op.port, level.At(op.port)))
  {
    match op
    case WritePin(p, pin, state) =>
      PinWriteOutcome(p, pin, state, chip, level, []);
      PinWriteResult(op, chip, level);
      if pin >= 0 { FakePin(p, pin, state, chip, level); }
    case ReadPort(p) => SensedIsOutput(chip, p, level.At(p));
    case WriteAll(v0, v1) => WriteAllUnfolds(v0, v1, chip, level, []);
                             assert Exec(op, 1, {}, chip.Put(Output(0), v0), level, []).result == Ok({});
    case SetAll(ins) =>
      LowByteIsByte(if ins then ALL_ONES else {});
      var m := if ins then ALL_ONES else {};
      var c := chip.Put(Config(0), m);
      assert Exec(op, 1, {}, c, level, []) == Ran(c.Put(Config(1), m), Ok({}), []);
    case _ =>
  }

  lemma FakePin(p: int, pin: nat, state: bool, chip: Chip, level: Ports)
    requires ByteWide(chip)
    ensures Call(WritePin(p, pin, state), chip, level, []).chip == Fake(WritePin(p, pin, state), chip).0 <==> (pin < 8 || !state)
  {
    var op := WritePin(p, pin, state);
    var done, fake := Call(op, chip, level, []).chip, Fake(op, chip).0;
    PinWriteIsLocal(p, pin, state, chip, level, []);
    PinWriteOutcome(p, pin, state, chip, level, []);
    assert forall b | b in chip.output.At(p) :: b in ALL_ONES;
    if pin < 8 || !state {
      assert done.output.At(p) == fake.output.At(p);
    } else {
      assert pin in fake.output.At(p) && pin !in done.output.At(p);
    }
  }

  function FakeReplay(start: map<int, Chip>, done: seq<Done>): map<int, Chip> {
    if done == [] then start else
      var before, d := FakeReplay(start, done[..|done| - 1]), done[|done| - 1];
      if d.addr in before then before[d.addr := Fake(d.op, before[d.addr]).0] else before
  }

  /** With no transaction failing and pins 0..7, every interleaving on the real bus ends where
      the fake backend's atomic operations end in lock order. */
  lemma RefinesFake(start: map<int, Chip>, events: seq<Event>)
    requires forall a | a in start :: ByteWide(start[a])
    requires var s := Run(Boot(start), events, true);
             s.lock == None && forall d | d in s.done :: WithinByte(d.op) && Passed(d.faults, |d.faults|)
    ensures var s := Run(Boot(start), events, true);
            s.chips == FakeReplay(start, s.done)
  {
    EveryInterleavingIsSerial(start, events);
    ReplayIsFake(start, Run(Boot(start), events, true).done);
  }

  lemma {:induction false} ReplayIsFake(start: map<int, Chip>, done: seq<Done>)
    requires forall a | a in start :: ByteWide(start[a])
    requires forall d | d in done :: WithinByte(d.op) && Passed(d.faults, |d.faults|)
    ensures Replay(start, done) == FakeReplay(start, done)
    decreases |done|
  {
    hide Exec, Fake, WithinByte;
    if done != [] {
      var shorter, d := done[..|done| - 1], done[|done| - 1];
      assert d in done;
      ReplayIsFake(start, shorter);
      ReplayByteWide(start, shorter);
      var before := Replay(start, shorter);
      if d.addr in before {
        NoFaultsNoMatter(d.op, 0, {}, before[d.addr], d.level, d.faults);
        AgreesWithFake(d.op, before[d.addr], d.level);
      }
    }
  }

  lemma {:induction false} NoFaultsNoMatter(op: Op, pc: nat, seen: Bits, chip: Chip, level: Ports, faults: seq<bool>)
    requires Passed(faults, |faults|)
    ensures Exec(op, pc, seen, chip, level, faults).chip == Exec(op, pc, seen, chip, level, []).chip
    decreases 3 - pc
  {
    assert !Fault(faults) && Passed(Tail(faults), |Tail(faults)|);
    match Next(op, pc, seen)
    case Fetch(reg) => NoFaultsNoMatter(op, pc + 1, chip.Get(reg, level.At(reg.port)), chip, level, Tail(faults));
    case Store(reg, v) => NoFaultsNoMatter(op, pc + 1, {}, chip.Put(reg, v), level, Tail(faults));
    case _ =>
  }

  // ---------------------------------------------------------------- without the lock

  const DARK := Ports({}, {})
  const FIRST := WritePin(0, 0, true)
  const SECOND := WritePin(0, 1, true)
  const BENCH := map[0x20 := Chip(DARK, DARK)]

  /** Both threads read the register before either writes it back. */
  const RACE: seq<Event> := [
    Enter(1, 0x20, FIRST), Enter(2, 0x20, SECOND), Acquire(1), Acquire(2),
    Transact(1, true, DARK), Transact(2, true, DARK),
    Transact(1, true, DARK), Transact(2, true, DARK),
    Transact(1, true, DARK), Transact(2, true, DARK)
  ]

  /** Both threads inside, after `pc` transactions each. */
  function Both(pc: nat, out: Bits): Sys {
    Sys(map[0x20 := Chip(Ports(out, {}), DARK)], Some(2),
        map[1 := Inside(0x20, FIRST, pc, {}, DARK), 2 := Inside(0x20, SECOND, pc, {}, DARK)], [])
  }

  lemma RaceBegins()
    ensures Run(Boot(BENCH), RACE[..4], false) == Both(0, {})
  {
    RunTwo(Boot(BENCH), RACE, 2);
    RunTwo(Boot(BENCH), RACE, 0);
    var s1 := Step(Boot(BENCH), RACE[0], false);
    var s2 := Step(s1, RACE[1], false);
    assert s2 == Sys(BENCH, None, map[1 := Waiting(0x20, FIRST), 2 := Waiting(0x20, SECOND)], []);
    var s3 := Step(s2, RACE[2], false);
    assert s3 == Sys(BENCH, Some(1), map[1 := Inside(0x20, FIRST, 0, {}, DARK), 2 := Waiting(0x20, SECOND)], []);
  }

  lemma RaceReads()
    ensures Step(Step(Both(0, {}), RACE[4], false), RACE[5], false) == Both(1, {})
  {
    var s := Step(Both(0, {}), RACE[4], false);
    assert s.threads == map[1 := Inside(0x20, FIRST, 1, {}, DARK), 2 := Inside(0x20, SECOND, 0, {}, DARK)];
  }

  lemma RaceWrites()
    ensures Step(Step(Both(1, {}), RACE[6], false), RACE[7], false) == Both(2, {1})
  {
    var s := Step(Both(1, {}), RACE[6], false);
    assert {} + {0} == {0} && LowByte({0}) == {0} && {} + {1} == {1} && LowByte({1}) == {1};
    assert s.chips == map[0x20 := Chip(Ports({0}, {}), DARK)];
    assert s.threads == map[1 := Inside(0x20, FIRST, 2, {}, DARK), 2 := Inside(0x20, SECOND, 1, {}, DARK)];
  }

  lemma RaceEnds()
    ensures var s := Step(Step(Both(2, {1}), RACE[8], false), RACE[9], false);
            && s.chips == Both(2, {1}).chips
            && s.done == [Done(1, 0x20, FIRST, DARK, Clean(2), Ok({})), Done(2, 0x20, SECOND, DARK, Clean(2), Ok({}))]
  {}

  /** Two unlocked pin writes can lose one: both calls succeed, the last word on bit 0 is 1,
      and the register holds 0. */
  lemma UnlockedLosesUpdate()
    ensures var s := Run(Boot(BENCH), RACE, false);
            && |s.done| == 2 && (forall k | 0 <= k < 2 :: s.done[k].result.Ok?)
            && 0x20 in s.chips
            && Latest(s.done, 0x20, 0, 0, false)
            && 0 !in s.chips[0x20].output.p0
  {
    hide Step;
    RaceBegins();
    RunTwo(Boot(BENCH), RACE, 4);
    RaceReads();
    RunTwo(Boot(BENCH), RACE, 6);
    RaceWrites();
    RunTwo(Boot(BENCH), RACE, 8);
    RaceEnds();
    assert RACE[..10] == RACE;
    var done := Run(Boot(BENCH), RACE, false).done;
    assert Says(done[1], 0x20, 0, 0) == None && Says(done[0], 0x20, 0, 0) == Some(true);
    assert done[..1] == [done[0]];
  }

  lemma RunTwo(s: Sys, events: seq<Event>, k: nat)
    requires k + 2 <= |events|
    ensures Run(s, events[..k + 2], false) == Step(Step(Run(s, events[..k], false), events[k], false), events[k + 1], false)
  {
    assert events[..k + 2][..k + 1] == events[..k + 1] && events[..k + 1][..k] == events[..k];
  }
}
