/** The TCA9555 I/O expander and its driver (tools/tca9555.py). Register and argument
    values are nonnegative integers, represented by the positions of their set bits. */
module RelayExpander {
  import opened Wrappers

  type Bits = set<nat>

  /** `value & 0xFF`. */
  function LowByte(v: Bits): Bits { set b | b in v && b < 8 :: b }

  const ALL_ONES: Bits := {0, 1, 2, 3, 4, 5, 6, 7}

  /** A pair of 8-bit registers; every port number but 0 addresses the second. */
  datatype Ports = Ports(p0: Bits, p1: Bits) {
    function At(port: int): Bits { if port == 0 then p0 else p1 }
    function With(port: int, v: Bits): Ports { if port == 0 then Ports(v, p1) else Ports(p0, v) }
  }

  datatype Reg = Input(port: int) | Output(port: int) | Config(port: int)

  datatype Chip = Chip(output: Ports, config: Ports) {
    /** A config bit of 1 makes the pin an input, read from the outside `level`; a pin driven
        as an output reads back what the output register holds. */
    function Sensed(port: int, level: Bits): Bits {
      LowByte((level * config.At(port)) + (output.At(port) - config.At(port)))
    }

    function Get(reg: Reg, level: Bits): Bits {
      match reg
      case Input(p) => Sensed(p, level)
      case Output(p) => output.At(p)
      case Config(p) => config.At(p)
    }

    function Put(reg: Reg, v: Bits): Chip {
      match reg
      case Input(_) => this
      case Output(p) => this.(output := output.With(p, LowByte(v)))
      case Config(p) => this.(config := config.With(p, LowByte(v)))
    }
  }

  predicate ByteWide(c: Chip) {
    && c.output.p0 <= ALL_ONES && c.output.p1 <= ALL_ONES
    && c.config.p0 <= ALL_ONES && c.config.p1 <= ALL_ONES
  }

  // ---------------------------------------------------------------- driver calls as scripts

  datatype Op =
    | ReadPort(port: int)
    | SetDirection(port: int, mask: Bits)
    | GetDirection(port: int)
    | SetAll(inputs: bool)
    | WritePort(port: int, value: Bits)
    | WriteAll(p0: Bits, p1: Bits)
    | WritePin(port: int, pin: int, state: bool)

  /** One bus transaction, or the end of the call. */
  datatype Act = Fetch(reg: Reg) | Store(reg: Reg, value: Bits) | Finish(result: Bits) | Fail

  /** What a call does after `pc` transactions, the last of which returned `seen`. */
  function Next(op: Op, pc: nat, seen: Bits): Act {
    match op
    case ReadPort(p) => if pc == 0 then Fetch(Input(p)) else Finish(seen)
    case GetDirection(p) => if pc == 0 then Fetch(Config(p)) else Finish(seen)
    case SetDirection(p, m) => if pc == 0 then Store(Config(p), m) else Finish({})
    case SetAll(ins) =>
      if pc < 2 then Store(Config(pc), if ins then ALL_ONES else {}) else Finish({})
    case WritePort(p, v) => if pc == 0 then Store(Output(p), v) else Finish({})
    case WriteAll(v0, v1) =>
      if pc == 0 then Store(Output(0), v0) else if pc == 1 then Store(Output(1), v1) else Finish({})
    case WritePin(p, pin, state) =>
      if pc == 0 then Fetch(Output(p))
      else if pin < 0 then Fail
      else if pc == 1 then Store(Output(p), if state then seen + {pin} else seen - {pin})
      else Finish({})
  }

  datatype Ran = Ran(chip: Chip, result: Outcome<Bits>, faults: seq<bool>)

  function Fault(faults: seq<bool>): bool { faults != [] && faults[0] }
  function Tail(faults: seq<bool>): seq<bool> { if faults == [] then [] else faults[1..] }

  /** A call carried out without interruption. `faults` says which transactions raise. */
  function Exec(op: Op, pc: nat, seen: Bits, chip: Chip, level: Ports, faults: seq<bool>): Ran
    decreases 3 - pc
  {
    match Next(op, pc, seen)
    case Finish(v) => Ran(chip, Ok(v), faults)
    case Fail => Ran(chip, Raised, faults)
    case Fetch(reg) =>
      if Fault(faults) then Ran(chip, Raised, Tail(faults))
      else Exec(op, pc + 1, chip.Get(reg, level.At(reg.port)), chip, level, Tail(faults))
    case Store(reg, v) =>
      if Fault(faults) then Ran(chip, Raised, Tail(faults))
      else Exec(op, pc + 1, {}, chip.Put(reg, v), level, Tail(faults))
  }

  function Call(op: Op, chip: Chip, level: Ports, faults: seq<bool>): Ran {
    Exec(op, 0, {}, chip, level, faults)
  }

  // ---------------------------------------------------------------- the driver

  class Tca9555 {
    var chip: Chip
    var level: Ports
    var faults: seq<bool>

    constructor (chip: Chip, level: Ports, faults: seq<bool>)
      ensures this.chip == chip && this.level == level && this.faults == faults
    {
      this.chip, this.level, this.faults := chip, level, faults;
    }

    method Read(reg: Reg) returns (r: Outcome<Bits>)
      modifies this`faults
      ensures faults == Tail(old(faults))
      ensures r == if Fault(old(faults)) then Raised else Ok(chip.Get(reg, level.At(reg.port)))
    {
      var bad := Fault(faults);
      faults := Tail(faults);
      r := if bad then Raised else Ok(chip.Get(reg, level.At(reg.port)));
    }

    method Write(reg: Reg, value: Bits) returns (r: Outcome<()>)
      modifies this`chip, this`faults
      ensures faults == Tail(old(faults))
      ensures r == if Fault(old(faults)) then Raised else Ok(())
      ensures chip == if Fault(old(faults)) then old(chip) else old(chip).Put(reg, value)
    {
      var bad := Fault(faults);
      faults := Tail(faults);
      if bad { return Raised; }
      chip := chip.Put(reg, value);
      r := Ok(());
    }

    method SetDirection(port: int, mask: Bits) returns (r: Outcome<()>)
      modifies this`chip, this`faults
      ensures Call(Op.SetDirection(port, mask), old(chip), level, old(faults)) == Ran(chip, if r.Raised? then Raised else Ok({}), faults)
    {
      var reg := if port == 0 then Config(0) else Config(1);
      r := Write(reg, mask);
    }

    method WritePort(port: int, value: Bits) returns (r: Outcome<()>)
      modifies this`chip, this`faults
      ensures Call(Op.WritePort(port, value), old(chip), level, old(faults)) == Ran(chip, if r.Raised? then Raised else Ok({}), faults)
    {
      var reg := if port == 0 then Output(0) else Output(1);
      r := Write(reg, value);
    }

    /** Read the output register, change one bit of what was read, write it all back. */
    method WritePin(port: int, pin: int, state: bool) returns (r: Outcome<()>)
      modifies this`chip, this`faults
      ensures Call(Op.WritePin(port, pin, state), old(chip), level, old(faults)) == Ran(chip, if r.Raised? then Raised else Ok({}), faults)
    {
      var reg := if port == 0 then Output(0) else Output(1);
      var current :- Read(reg);
      if pin < 0 { return Raised; }
      if state {
        current := current + {pin};
      } else {
        current := current - {pin};
      }
      r := Write(reg, current);
    }

    method WriteAll(p0: Bits, p1: Bits) returns (r: Outcome<()>)
      modifies this`chip, this`faults
      ensures Call(Op.WriteAll(p0, p1), old(chip), level, old(faults)) == Ran(chip, if r.Raised? then Raised else Ok({}), faults)
    {
      var _ :- Write(Output(0), p0);
      r := Write(Output(1), p1);
    }

    method SetAll(inputs: bool) returns (r: Outcome<()>)
      modifies this`chip, this`faults
      ensures Call(Op.SetAll(inputs), old(chip), level, old(faults)) == Ran(chip, if r.Raised? then Raised else Ok({}), faults)
    {
      var mask: Bits := if inputs then {0, 1, 2, 3, 4, 5, 6, 7} else {};
      var _ :- Write(Config(0), mask);
      r := Write(Config(1), mask);
    }

    method ReadPort(port: int) returns (r: Outcome<Bits>)
      modifies this`faults
      ensures Call(Op.ReadPort(port), chip, level, old(faults)) == Ran(chip, r, faults)
    {
      var reg := if port == 0 then Input(0) else Input(1);
      r := Read(reg);
    }

    method GetDirection(port: int) returns (r: Outcome<Bits>)
      modifies this`faults
      ensures Call(Op.GetDirection(port), chip, level, old(faults)) == Ran(chip, r, faults)
    {
      var reg := if port == 0 then Config(0) else Config(1);
      r := Read(reg);
    }
  }

  // ---------------------------------------------------------------- what a call leaves behind

  lemma LowByteIsByte(v: Bits)
    ensures LowByte(v) <= ALL_ONES
    ensures v <= ALL_ONES ==> LowByte(v) == v
  {
    if v <= ALL_ONES {
      assert forall b | b in v :: b in ALL_ONES;
    }
  }

  lemma StaysByteWide(op: Op, pc: nat, seen: Bits, chip: Chip, level: Ports, faults: seq<bool>)
    requires ByteWide(chip)
    ensures ByteWide(Exec(op, pc, seen, chip, level, faults).chip)
    decreases 3 - pc
  {
    match Next(op, pc, seen)
    case Fetch(reg) =>
      if !Fault(faults) { StaysByteWide(op, pc + 1, chip.Get(reg, level.At(reg.port)), chip, level, Tail(faults)); }
    case Store(reg, v) =>
      LowByteIsByte(v);
      if !Fault(faults) { StaysByteWide(op, pc + 1, {}, chip.Put(reg, v), level, Tail(faults)); }
    case Finish(_) =>
    case Fail =>
  }

  /** A pin write changes its own bit, if the register has that bit, and no other register bit;
      one that raises changes nothing. */
  lemma PinWriteIsLocal(port: int, pin: int, state: bool, chip: Chip, level: Ports, faults: seq<bool>)
    requires ByteWide(chip)
    ensures var ran := Call(WritePin(port, pin, state), chip, level, faults);
            && (ran.result.Raised? ==> ran.chip == chip)
            && (ran.result.Ok? ==>
                  && ran.chip == chip.(output := ran.chip.output)
                  && ran.chip.output == chip.output.With(port, ran.chip.output.At(port))
                  && forall b :: b in ran.chip.output.At(port) <==> if b == pin then state && pin < 8 else b in chip.output.At(port))
  {
    var cur := chip.output.At(port);
    if pin >= 0 {
      var v := if state then cur + {pin} else cur - {pin};
      var next := chip.Put(Output(port), v);
      assert Exec(WritePin(port, pin, state), 1, cur, chip, level, Tail(faults)) ==
        if Fault(Tail(faults)) then Ran(chip, Raised, Tail(Tail(faults)))
        else Ran(next, Ok({}), Tail(Tail(faults)));
      assert forall b | b in cur :: b in ALL_ONES;
    }
  }

  /** All inputs: a port reads the outside. All outputs: it reads back what was written. */
  lemma DirectionMeans(chip: Chip, port: int, level: Ports)
    requires ByteWide(chip)
    ensures Call(SetAll(true), chip, level, []).chip.Sensed(port, level.At(port)) == LowByte(level.At(port))
    ensures Call(SetAll(false), chip, level, []).chip.Sensed(port, level.At(port)) == chip.output.At(port)
    ensures Call(GetDirection(port), Call(SetAll(true), chip, level, []).chip, level, []).result == Ok({0, 1, 2, 3, 4, 5, 6, 7})
    ensures Call(GetDirection(port), Call(SetAll(false), chip, level, []).chip, level, []).result == Ok({})
  {
    SetAllSets(chip, level, true);
    SetAllSets(chip, level, false);
    assert forall b: nat :: b in ALL_ONES <==> b < 8;
    var out, lev := chip.output.At(port), level.At(port);
    assert out <= ALL_ONES;
    assert LowByte((lev * {}) + (out - {})) == out by { LowByteIsByte(out); assert (lev * {}) + (out - {}) == out; }
    assert LowByte((lev * ALL_ONES) + (out - ALL_ONES)) == LowByte(lev);
  }

  lemma SetAllSets(chip: Chip, level: Ports, ins: bool)
    ensures Call(SetAll(ins), chip, level, []).chip ==
            chip.(config := if ins then Ports(ALL_ONES, ALL_ONES) else Ports({}, {}))
  {
    LowByteIsByte(ALL_ONES);
    LowByteIsByte({});
    var m := if ins then ALL_ONES else {};
    var c := chip.Put(Config(0), m);
    assert Exec(SetAll(ins), 1, {}, c, level, []) == Ran(c.Put(Config(1), m), Ok({}), []);
  }

  /** On every pin configured as an input, the outside shows what the output register holds. */
  predicate OutsideAgrees(chip: Chip, port: int, level: Bits) {
    forall b | b in chip.config.At(port) :: b in level <==> b in chip.output.At(port)
  }

  /** Reading a port back gives its output register if and only if the outside agrees with
      it on every pin configured as an input. */
  lemma SensedIsOutput(chip: Chip, port: int, level: Bits)
    requires ByteWide(chip)
    ensures chip.Sensed(port, level) == chip.output.At(port) <==> OutsideAgrees(chip, port, level)
  {
    var out, cfg, sensed := chip.output.At(port), chip.config.At(port), chip.Sensed(port, level);
    forall b: nat ensures b in sensed <==> if b in cfg then b in level else b in out {
      if b in out || b in cfg {
        assert b in ALL_ONES;
        assert b < 8;
      }
      assert b in sensed <==> b in (level * cfg) + (out - cfg) && b < 8;
    }
  }

  lemma PinWriteResult(op: Op, chip: Chip, level: Ports)
    requires op.WritePin?
    ensures Call(op, chip, level, []).result == if op.pin < 0 then Raised else Ok({})
  {
    var cur := chip.output.At(op.port);
    assert Exec(op, 1, cur, chip, level, []).result == if op.pin < 0 then Raised else Ok({});
  }
}
