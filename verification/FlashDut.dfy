/** The bench flasher (tools/flash_dut.py): power down every other carrier, power the
    target, check it, and only then write. Every broker call and every subprocess may
    fail, a broker call also after it took effect. */
module FlashDut {
  import opened Wrappers
  import opened RelayExpander

  /** A slot of the bench descriptor, in the descriptor's own order. */
  datatype Slot = Slot(number: int, dut: Option<string>)

  datatype Seat = Seat(slot: int, dut: string)

  // ---------------------------------------------------------------- the other carriers

  predicate Occupied(s: Slot) { s.dut.Some? && s.dut.value != "none" }

  /** Every other slot that seats a DUT. */
  function OtherSeats(slots: seq<Slot>, target: int): seq<Seat> {
    if slots == [] then []
    else
      var last := slots[|slots| - 1];
      OtherSeats(slots[..|slots| - 1], target)
      + if last.number != target && Occupied(last) then [Seat(last.number, last.dut.value)] else []
  }

  predicate TextBefore(a: string, b: string) {
    a == "" || (b != "" && (a[0] < b[0] || (a[0] == b[0] && TextBefore(a[1..], b[1..]))))
  }

  predicate SeatBefore(a: Seat, b: Seat) {
    a.slot < b.slot || (a.slot == b.slot && TextBefore(a.dut, b.dut))
  }

  predicate Ordered(s: seq<Seat>) {
    forall k | 0 <= k < |s| - 1 :: SeatBefore(s[k], s[k + 1])
  }

  lemma {:induction false} TextTotal(a: string, b: string)
    ensures TextBefore(a, b) || TextBefore(b, a)
  {
    if a != "" && b != "" { TextTotal(a[1..], b[1..]); }
  }

  function Insert(x: Seat, s: seq<Seat>): (r: seq<Seat>)
    ensures multiset(r) == multiset(s) + multiset{x}
  {
    if s == [] then [x]
    else if SeatBefore(x, s[0]) then [x] + s
    else
      assert s == [s[0]] + s[1..];
      [s[0]] + Insert(x, s[1..])
  }

  lemma {:induction false} InsertOrdered(x: Seat, s: seq<Seat>)
    requires Ordered(s)
    ensures Ordered(Insert(x, s))
    ensures Insert(x, s) != [] && (Insert(x, s)[0] == x || (s != [] && Insert(x, s)[0] == s[0]))
  {
    if s != [] && !SeatBefore(x, s[0]) {
      assert SeatBefore(s[0], x) by { TextTotal(x.dut, s[0].dut); }
      assert Ordered(s[1..]);
      InsertOrdered(x, s[1..]);
      var r := Insert(x, s[1..]);
      assert SeatBefore(s[0], r[0]) by { if r[0] != x { assert r[0] == s[1]; } }
      forall k | 0 <= k < |r| ensures SeatBefore(([s[0]] + r)[k], ([s[0]] + r)[k + 1]) {
        if k > 0 { assert SeatBefore(r[k - 1], r[k]); }
      }
    }
  }

  method Sort(s: seq<Seat>) returns (r: seq<Seat>)
    ensures Ordered(r) && multiset(r) == multiset(s)
  {
    r := [];
    for i := 0 to |s|
      invariant Ordered(r) && multiset(r) == multiset(s[..i])
    {
      InsertOrdered(s[i], r);
      r := Insert(s[i], r);
      assert s[..i + 1] == s[..i] + [s[i]];
    }
    assert s[..|s|] == s;
  }

  /** The slots to darken: exactly the occupied ones but the target, in order. */
  method OtherDutSlots(slots: seq<Slot>, target: int) returns (others: seq<Seat>)
    ensures Ordered(others)
    ensures multiset(others) == multiset(OtherSeats(slots, target))
    ensures forall n :: Seats(others, n) <==> Darkened(slots, target, n)
  {
    var out := [];
    for i := 0 to |slots|
      invariant out == OtherSeats(slots[..i], target)
    {
      var s := slots[i];
      assert slots[..i + 1][..i] == slots[..i];
      if s.number != target && s.dut != None && s.dut != Some("none") {
        out := out + [Seat(s.number, s.dut.value)];
      }
    }
    assert slots[..|slots|] == slots;
    others := Sort(out);
    forall n ensures Seats(others, n) <==> Darkened(slots, target, n) {
      SeatsAreDarkened(slots, target, n);
      SameSlots(out, others, n);
      SameSlots(others, out, n);
    }
  }

  predicate Seats(seats: seq<Seat>, n: int) {
    exists k :: 0 <= k < |seats| && seats[k].slot == n
  }

  /** Slot `n` carries another DUT. */
  predicate Darkened(slots: seq<Slot>, target: int, n: int) {
    n != target && exists i :: 0 <= i < |slots| && slots[i].number == n && Occupied(slots[i])
  }

  /** The slots of configs/benches/bench-01.yaml: an AMS in slot 2, an ECU in slot 4. */
  const BENCH_01 := [Slot(1, Some("none")), Slot(2, Some("ams")), Slot(3, Some("none")), Slot(4, Some("ecu"))]

  /** There, flashing the one darkens the other and nothing else; and a slot without a `dut` key would
      stay as it is. */
  lemma BenchOneDarkens(n: int)
    ensures Darkened(BENCH_01, 2, n) <==> n == 4
    ensures Darkened(BENCH_01, 4, n) <==> n == 2
    ensures !Darkened(BENCH_01 + [Slot(5, None)], 4, 5)
  {
    assert BENCH_01[1].number == 2 && BENCH_01[3].number == 4;
  }

  lemma SameSlots(a: seq<Seat>, b: seq<Seat>, n: int)
    requires multiset(a) == multiset(b)
    ensures Seats(a, n) ==> Seats(b, n)
  {
    if k :| 0 <= k < |a| && a[k].slot == n {
      assert a[k] in multiset(a);
      assert a[k] in b;
      var j :| 0 <= j < |b| && b[j] == a[k];
    }
  }

  lemma {:induction false} SeatsAreDarkened(slots: seq<Slot>, target: int, n: int)
    ensures Seats(OtherSeats(slots, target), n)
            <==> Darkened(slots, target, n)
  {
    if slots != [] {
      var shorter, last := slots[..|slots| - 1], slots[|slots| - 1];
      SeatsAreDarkened(shorter, target, n);
      var before, all := OtherSeats(shorter, target), OtherSeats(slots, target);
      assert before <= all;
      if Darkened(shorter, target, n) {
        var k :| 0 <= k < |before| && before[k].slot == n;
        assert all[k].slot == n;
        var i :| 0 <= i < |shorter| && shorter[i].number == n && Occupied(shorter[i]);
        assert slots[i] == shorter[i];
      } else if last.number == n && n != target && Occupied(last) {
        assert all[|before|].slot == n;
      } else {
        forall k | 0 <= k < |all| ensures all[k].slot != n {
          if k < |before| {
            assert all[k] == before[k] && before[k].slot != n;
          } else {
            assert all[k] == Seat(last.number, last.dut.value);
          }
        }
        if n != target {
          forall i | 0 <= i < |slots| ensures !(slots[i].number == n && Occupied(slots[i])) {
            if i < |shorter| { assert shorter[i] == slots[i]; }
          }
        }
      }
    }
  }

  // ---------------------------------------------------------------- reading a discovery

  function LowerChar(c: char): char {
    if 'A' <= c <= 'Z' then (c as int + 32) as char else c
  }

  function Lower(s: string): string {
    seq(|s|, i requires 0 <= i < |s| => LowerChar(s[i]))
  }

  predicate Blank(c: char) { c == ' ' || '\t' <= c <= '\r' }

  /** All blanks at the front are gone, and nothing else. */
  function TrimLeft(s: string): (r: string)
    ensures |r| <= |s| && r == s[|s| - |r|..]
    ensures r != "" ==> !Blank(r[0])
    ensures forall i | 0 <= i < |s| - |r| :: Blank(s[i])
  {
    if s != "" && Blank(s[0]) then TrimLeft(s[1..]) else s
  }

  /** All blanks at the end are gone, and nothing else. */
  function TrimRight(s: string): (r: string)
    ensures r <= s
    ensures r != "" ==> !Blank(r[|r| - 1])
    ensures forall i | |r| <= i < |s| :: Blank(s[i])
  {
    if s != "" && Blank(s[|s| - 1]) then TrimRight(s[..|s| - 1]) else s
  }

  predicate OccursAt(s: string, t: string, i: int) {
    0 <= i <= |s| - |t| && s[i..i + |t|] == t
  }

  predicate Contains(s: string, t: string) {
    exists i | 0 <= i <= |s| :: OccursAt(s, t, i)
  }

  /** A text contains exactly what can be cut out of it. */
  lemma ContainsMeans(s: string, t: string)
    ensures Contains(s, t) <==> exists a: string, b: string :: s == a + t + b
  {
    if Contains(s, t) {
      var i :| 0 <= i <= |s| && OccursAt(s, t, i);
      assert s == s[..i] + t + s[i + |t|..];
    }
    forall a: string, b: string | s == a + t + b ensures Contains(s, t) {
      assert OccursAt(s, t, |a|);
    }
  }

  predicate IsRow(line: string) { "0x" <= Lower(TrimLeft(line)) }

  /** The node rows of a discovery's output. */
  function Rows(lines: seq<string>): seq<string> {
    if lines == [] then []
    else (if IsRow(lines[0]) then [TrimRight(TrimLeft(lines[0]))] else []) + Rows(lines[1..])
  }

  predicate Appless(row: string) { Contains(Lower(row), "no app installed") }

  /** The identity gate: a declared product must be named in the row, unless the board
      reports that it has no application to take a name from. */
  predicate Identified(product: Option<string>, row: string) {
    product.None? || product.value == "" || Appless(row) || Contains(row, product.value)
  }

  /** A row is blanks, then 0, then x in either case. */
  lemma RowMeans(line: string)
    ensures IsRow(line) <==> exists k :: 0 <= k < |line| - 1 && line[k] == '0' && line[k + 1] in {'x', 'X'} && BlankUpTo(line, k)
  {
    var t := TrimLeft(line);
    var n := |line| - |t|;
    StartsWithHex(t);
    hide TrimLeft, Lower;
    assert forall i | n <= i < |line| :: line[i] == t[i - n];
    if IsRow(line) {
      assert line[n] == '0' && line[n + 1] in {'x', 'X'} && BlankUpTo(line, n);
    }
    forall k | 0 <= k < |line| - 1 && line[k] == '0' && line[k + 1] in {'x', 'X'} && BlankUpTo(line, k) ensures IsRow(line) {
      assert !Blank(line[k]) && k == n;
    }
  }

  lemma StartsWithHex(t: string)
    ensures "0x" <= Lower(t) <==> |t| >= 2 && t[0] == '0' && t[1] in {'x', 'X'}
  {
    if |t| >= 2 {
      assert Lower(t)[0] == LowerChar(t[0]) && Lower(t)[1] == LowerChar(t[1]);
      assert "0x" <= Lower(t) <==> Lower(t)[0] == '0' && Lower(t)[1] == 'x';
    }
  }

  predicate BlankUpTo(s: string, k: int)
    requires 0 <= k <= |s|
  {
    forall i | 0 <= i < k :: Blank(s[i])
  }

  /** The exception is found in any case, anywhere in the row. */
  lemma ApplessInAnyCase(a: string, word: string, b: string)
    requires Lower(word) == "no app installed"
    ensures Appless(a + word + b)
  {
    var row := a + word + b;
    assert Lower(row) == Lower(a) + Lower(word) + Lower(b);
    assert OccursAt(Lower(row), "no app installed", |a|);
  }

  lemma LowerAsWritten()
    ensures Lower("No App INSTALLED") == "no app installed"
  {
  }

  // ---------------------------------------------------------------- before anything is energised

  /** What is looked up first: the image's digest if the file exists, the digest asked for, the
      slot resolved, a known current sensor, the writer's version and the broker's socket. */
  datatype Preflight = Preflight(
    image: Option<string>, expected: Option<string>, resolved: bool, sensor: bool,
    flasher: Option<(int, int, int)>, broker: bool)

  predicate AtLeast(v: (int, int, int), w: (int, int, int)) {
    v.0 > w.0 || (v.0 == w.0 && (v.1 > w.1 || (v.1 == w.1 && v.2 >= w.2)))
  }

  /** Versions are ordered by their first number, then their second, then their third. */
  lemma AtLeastOrders(u: (int, int, int), v: (int, int, int), w: (int, int, int))
    ensures AtLeast(u, v) || AtLeast(v, u)
    ensures AtLeast(u, v) && AtLeast(v, u) ==> u == v
    ensures AtLeast(u, v) && AtLeast(v, w) ==> AtLeast(u, w)
    ensures u.0 > v.0 ==> AtLeast(u, v)
    ensures u.0 == v.0 && u.1 > v.1 ==> AtLeast(u, v)
    ensures u.0 == v.0 && u.1 == v.1 ==> (AtLeast(u, v) <==> u.2 >= v.2)
  {
  }

  predicate Ready(p: Preflight, dry: bool) {
    && p.image.Some? && (p.expected.None? || p.expected.value == "" || p.expected == p.image)
    && p.resolved && p.sensor
    && (dry || (p.flasher.Some? && AtLeast(p.flasher.value, (2, 8, 0)) && p.broker))
  }

  // ---------------------------------------------------------------- the bench

  datatype Fault = Fine | Refused | LateFailure

  datatype Command = Trigger | Discover | Write

  /** A command issued, with the relay port as it then was and the writes made so far. */
  datatype Issue = Issue(command: Command, output: Bits, config: Bits, writes: nat)

  datatype Job = Job(
    preflight: Preflight, slots: seq<Slot>, slot: int, port: int, dry: bool, restore: bool,
    floor: real, product: Option<string>, payload: bool, address: bool)

  /** What the carrier and the subprocesses will do: the current drawn, in amperes, the lines a
      discovery prints, the writer's exit status, and which launches raise; and how each broker
      call will fare. */
  datatype World = World(
    current: Outcome<real>, lines: seq<string>, status: int, launches: Command -> bool,
    level: Ports, faults: nat -> Fault)

  /** Each other DUT's bit is 0, the target's is 1, and every other bit is as it was. */
  predicate Isolated(job: Job, was: Bits, now: Bits) {
    && (forall b: nat | b < 8 ::
         b in now <==> (b == job.slot - 1 || (b in was && !Darkened(job.slots, job.slot, b + 1))))
    && now <= ALL_ONES
  }

  const ORDER := [Trigger, Discover, Write]

  /** What every run keeps of the commands it issues. */
  predicate Guarded(job: Job, world: World, was: Bits, issued: seq<Issue>) {
    && |issued| <= 3
    && (forall k | 0 <= k < |issued| ::
         issued[k].command == ORDER[k] && issued[k].config == {} && Isolated(job, was, issued[k].output))
    && (issued != [] ==>
         && !job.dry && Ready(job.preflight, false) && job.slot >= 1
         && world.current.Ok? && world.current.value * 1000.0 >= job.floor)
    && (|issued| == 3 ==> |Rows(world.lines)| == 1 && Identified(job.product, Rows(world.lines)[0]))
  }

  class Bench {
    const world: World
    var chip: Chip
    var calls: nat
    var issued: seq<Issue>
    var writes: seq<Bits>

    constructor (chip: Chip, world: World)
      ensures this.chip == chip && this.world == world
      ensures calls == 0 && issued == [] && writes == []
    {
      this.chip, this.world := chip, world;
      calls, issued, writes := 0, [], [];
    }

    /** A broker call on the relay expander. Each output value written is noted. */
    method Ask(op: Op) returns (r: Outcome<Bits>)
      modifies this`chip, this`calls, this`writes
      ensures calls == old(calls) + 1
      ensures var fault, ran := world.faults(old(calls)), Call(op, old(chip), world.level, []);
              && r == (if fault == Fine then ran.result else Raised)
              && chip == (if fault == Refused then old(chip) else ran.chip)
              && writes == old(writes) + (if fault != Refused && ran.result.Ok? && (op.WritePin? || op.WritePort?)
                                          then [ran.chip.output.At(op.port)] else [])
    {
      var fault := world.faults(calls);
      calls := calls + 1;
      if fault == Refused { return Raised; }
      var ran := Call(op, chip, world.level, []);
      chip, r := ran.chip, ran.result;
      if r.Ok? && (op.WritePin? || op.WritePort?) { writes := writes + [chip.output.At(op.port)]; }
      if fault == LateFailure { r := Raised; }
    }

    method Launch(job: Job, command: Command) returns (r: Outcome<()>)
      modifies this`issued
      ensures issued == old(issued) + [Issue(command, chip.output.At(job.port), chip.config.At(job.port), |writes|)]
      ensures r.Ok? <==> world.launches(command)
    {
      issued := issued + [Issue(command, chip.output.At(job.port), chip.config.At(job.port), |writes|)];
      r := if world.launches(command) then Ok(()) else Raised;
    }

    /** Drive one relay. */
    method SwitchPin(port: int, pin: int, state: bool) returns (r: Outcome<()>)
      requires ByteWide(chip)
      modifies this`chip, this`calls, this`writes
      ensures ByteWide(chip)
      ensures r.Ok? ==> pin >= 0 && chip.config == old(chip).config
      ensures r.Ok? ==> forall b: nat :: b in chip.output.At(port) <==> if b == pin then state && pin < 8 else b in old(chip).output.At(port)
    {
      var op := WritePin(port, pin, state);
      StaysByteWide(op, 0, {}, chip, world.level, []);
      PinWriteIsLocal(port, pin, state, chip, world.level, []);
      PinWriteResult(op, chip, world.level);
      hide Exec, ByteWide;
      var _ :- Ask(op);
      r := Ok(());
    }

    /** Darken every other DUT, then power the target. */
    method Isolate(job: Job, others: seq<Seat>) returns (r: Outcome<()>)
      requires ByteWide(chip)
      requires forall n :: Seats(others, n) <==> Darkened(job.slots, job.slot, n)
      modifies this`chip, this`calls, this`writes
      ensures ByteWide(chip)
      ensures r.Ok? ==> chip.config == old(chip).config && job.slot >= 1
      ensures r.Ok? ==> Isolated(job, old(chip).output.At(job.port), chip.output.At(job.port))
    {
      hide Exec, Darkened;
      ghost var was := chip.output.At(job.port);
      for i := 0 to |others|
        invariant ByteWide(chip) && chip.config == old(chip).config
        invariant forall b: nat | b < 8 ::
          b in chip.output.At(job.port) <==> b in was && forall k | 0 <= k < i :: others[k].slot != b + 1
      {
        var _ :- SwitchPin(job.port, others[i].slot - 1, false);
      }
      var _ :- SwitchPin(job.port, job.slot - 1, true);
      r := Ok(());
    }

    /** From the trigger to the write, with the relays already set. */
    method Commands(job: Job) returns (r: Outcome<()>)
      requires issued == []
      modifies this`issued
      ensures |issued| <= 3
      ensures forall k | 0 <= k < |issued| ::
                issued[k] == Issue(ORDER[k], chip.output.At(job.port), chip.config.At(job.port), |writes|)
      ensures |issued| == 3 ==> |Rows(world.lines)| == 1 && Identified(job.product, Rows(world.lines)[0])
      ensures r.Ok? <==> |issued| == 3 && world.launches(Write) && world.status == 0
    {
      hide Rows, Contains, Appless;
      if !job.payload { return Raised; }
      var _ :- Launch(job, Trigger);
      var _ :- Launch(job, Discover);
      var found := Rows(world.lines);
      if found == [] { return Raised; }
      if |found| > 1 { return Raised; }
      var row := found[0];
      var wanted := job.product.Some? && job.product.value != "";
      if wanted && Appless(row) {
      } else if wanted && !Contains(row, job.product.value) {
        return Raised;
      }
      if !job.address { return Raised; }
      var _ :- Launch(job, Write);
      if world.status != 0 { return Raised; }
      r := Ok(());
    }

    /** The `try` block. */
    method Attempt(job: Job, others: seq<Seat>) returns (r: Outcome<()>, before: Option<Bits>)
      requires ByteWide(chip) && issued == [] && writes == [] && calls == 0
      requires !job.dry && Ready(job.preflight, false)
      requires forall n :: Seats(others, n) <==> Darkened(job.slots, job.slot, n)
      modifies this`chip, this`calls, this`writes, this`issued
      ensures ByteWide(chip)
      ensures Guarded(job, world, old(chip).output.At(job.port), issued)
      ensures forall k | 0 <= k < |issued| :: issued[k].writes <= |writes|
      ensures before == if world.faults(0) == Fine then Some(old(chip).Sensed(job.port, world.level.At(job.port))) else None
      ensures r.Ok? <==> |issued| == 3 && world.launches(Write) && world.status == 0
      ensures r.Ok? ==> chip.output.At(job.port) == issued[2].output && chip.config.At(job.port) == {}
    {
      hide Darkened, Isolated, Rows, Identified, Ready, Exec, ByteWide, Chip.Sensed;
      ghost var was := chip.output.At(job.port);
      var ready;
      ready, before := Prepare(job);
      var _ :- ready;
      assert chip.output.At(job.port) == was;
      var _ :- Isolate(job, others);
      var amps :- world.current;
      if amps * 1000.0 < job.floor { return Raised, before; }
      r := Commands(job);
    }

    /** Take the snapshot, and make the pins outputs. */
    method Prepare(job: Job) returns (r: Outcome<()>, before: Option<Bits>)
      requires ByteWide(chip) && calls == 0
      modifies this`chip, this`calls, this`writes
      ensures ByteWide(chip) && chip.output == old(chip).output && writes == old(writes)
      ensures before == if world.faults(0) == Fine then Some(old(chip).Sensed(job.port, world.level.At(job.port))) else None
      ensures r.Ok? ==> before.Some? && chip.config.At(job.port) == {}
    {
      assert LowByte({}) == {};
      hide LowByte;
      before := None;
      var snapshot :- Ask(ReadPort(job.port));
      before := Some(snapshot);
      var _ :- Ask(SetDirection(job.port, {}));
      r := Ok(());
    }

    /** The `try` block and its `finally`. */
    method Guard(job: Job, others: seq<Seat>) returns (r: Outcome<bool>, before: Option<Bits>, restored: bool)
      requires ByteWide(chip) && issued == [] && writes == [] && calls == 0
      requires !job.dry && Ready(job.preflight, false)
      requires forall n :: Seats(others, n) <==> Darkened(job.slots, job.slot, n)
      modifies this`chip, this`calls, this`writes, this`issued
      ensures Guarded(job, world, old(chip).output.At(job.port), issued)
      ensures r == if |issued| == 3 && world.launches(Write) && world.status == 0 then Ok(true) else Raised
      ensures before == if world.faults(0) == Fine then Some(old(chip).Sensed(job.port, world.level.At(job.port))) else None
      ensures restored <==> job.restore && before.Some? && calls > 0 && world.faults(calls - 1) == Fine
      ensures restored ==>
                && writes != [] && writes[|writes| - 1] == before.value == chip.output.At(job.port)
                && forall k | 0 <= k < |issued| :: issued[k].writes < |writes|
      // and that is what the relays were, exactly if the outside agreed on every pin still an input
      ensures restored ==>
                (chip.output.At(job.port) == old(chip).output.At(job.port) <==>
                 OutsideAgrees(old(chip), job.port, world.level.At(job.port)))
      ensures r == Ok(true) && !job.restore ==>
                chip.config.At(job.port) == {} && Isolated(job, old(chip).output.At(job.port), chip.output.At(job.port))
    {
      var tried;
      tried, before := Attempt(job, others);
      restored := false;
      if before.Some? && job.restore {
        SnapshotIsByte(chip, old(chip), job.port, world.level);
        SensedIsOutput(old(chip), job.port, world.level.At(job.port));
        hide Exec, Guarded, Ready, ByteWide, Darkened, Chip.Sensed;
        var written := Ask(WritePort(job.port, before.value));
        restored := written.Ok?;
      }
      r := if tried.Ok? then Ok(true) else Raised;
    }

    /** One run: the verdict, the snapshot if one was taken, and whether it was put back. */
    method Flash(job: Job) returns (r: Outcome<bool>, before: Option<Bits>, restored: bool)
      requires ByteWide(chip) && issued == [] && writes == [] && calls == 0
      modifies this`chip, this`calls, this`writes, this`issued
      ensures Guarded(job, world, old(chip).output.At(job.port), issued)
      ensures job.dry || !Ready(job.preflight, job.dry) ==>
                r != Ok(true) && issued == [] && writes == [] && chip == old(chip) && calls == 0 && before == None
      ensures r == Ok(true) <==> |issued| == 3 && world.launches(Write) && world.status == 0
      ensures r == Ok(false) <==> job.dry && Ready(job.preflight, true) && job.payload && job.address
      ensures before.Some? <==> !job.dry && Ready(job.preflight, false) && world.faults(0) == Fine
      ensures before.Some? ==> before.value == old(chip).Sensed(job.port, world.level.At(job.port))
      // with a restore requested, the snapshot is the last value written, after every command
      ensures restored <==> job.restore && before.Some? && calls > 0 && world.faults(calls - 1) == Fine
      ensures restored ==>
                && writes != [] && writes[|writes| - 1] == before.value == chip.output.At(job.port)
                && forall k | 0 <= k < |issued| :: issued[k].writes < |writes|
      // and that is what the relays were, exactly if the outside agreed on every pin still an input
      ensures restored ==>
                (chip.output.At(job.port) == old(chip).output.At(job.port) <==>
                 OutsideAgrees(old(chip), job.port, world.level.At(job.port)))
      // otherwise the bench is left isolated on the target
      ensures r == Ok(true) && !job.restore ==>
                chip.config.At(job.port) == {} && Isolated(job, old(chip).output.At(job.port), chip.output.At(job.port))
    {
      hide Darkened, Isolated, Rows, Identified, ByteWide, Chip.Sensed, Exec, Ordered, OtherSeats;
      r, before, restored := Raised, None, false;
      var p := job.preflight;
      if p.image.None? { return; }
      if p.expected.Some? && p.expected.value != "" && p.expected != p.image { return; }
      if !p.resolved || !p.sensor { return; }
      var others := OtherDutSlots(job.slots, job.slot);
      if job.dry {
        if job.payload && job.address { r := Ok(false); }
        return;
      }
      if p.flasher.None? || !AtLeast(p.flasher.value, (2, 8, 0)) || !p.broker { return; }
      assert Ready(p, false);
      r, before, restored := Guard(job, others);
    }
  }

  /** Writing a snapshot back puts exactly it in the output register. */
  lemma SnapshotIsByte(now: Chip, was: Chip, port: int, level: Ports)
    ensures var before := was.Sensed(port, level.At(port));
            && Call(WritePort(port, before), now, level, []) == Ran(now.(output := now.output.With(port, before)), Ok({}), [])
  {
    var before := was.Sensed(port, level.At(port));
    LowByteIsByte((level.At(port) * was.config.At(port)) + (was.output.At(port) - was.config.At(port)));
    LowByteIsByte(before);
  }

  /** An expander after power-on: every pin an input, every output bit 1. */
  const POWER_ON := Chip(Ports(ALL_ONES, ALL_ONES), Ports(ALL_ONES, ALL_ONES))

  /** From power-on with the pins read low, the snapshot is all zeros, so a run that restores it does
      not put the output register back. */
  lemma PowerOnIsNotRestored(port: int)
    ensures ByteWide(POWER_ON) && !OutsideAgrees(POWER_ON, port, {})
    ensures POWER_ON.Sensed(port, {}) == {} != POWER_ON.output.At(port)
  {
    assert 0 in ALL_ONES;
    assert POWER_ON.config.At(port) == ALL_ONES && POWER_ON.output.At(port) == ALL_ONES;
  }

  /** With the commands guarded, the target's carrier is powered exactly when its slot has a
      relay bit, and no other DUT-bearing slot is. */
  lemma OnlyTargetPowered(job: Job, world: World, was: Bits, issued: seq<Issue>, k: nat, n: int)
    requires Guarded(job, world, was, issued) && k < |issued|
    ensures job.slot - 1 in issued[k].output <==> job.slot <= 8
    ensures n >= 1 && Darkened(job.slots, job.slot, n) ==> n - 1 !in issued[k].output
  {
    assert Darkened(job.slots, job.slot, n) ==> n != job.slot;
    hide Darkened, Rows, Identified;
    var now := issued[k].output;
    assert Isolated(job, was, now);
    if n >= 1 && Darkened(job.slots, job.slot, n) {
      if n <= 8 { assert (n - 1) + 1 == n; }
    }
  }

  lemma {:induction false} NoRow(lines: seq<string>)
    ensures Rows(lines) == [] <==> forall i | 0 <= i < |lines| :: !IsRow(lines[i])
  {
    hide IsRow, TrimLeft, TrimRight;
    if lines != [] {
      NoRow(lines[1..]);
      assert forall i | 1 <= i < |lines| :: lines[i] == lines[1..][i - 1];
    }
  }

  /** One row is found exactly when one line of the output starts with 0x, in either case, after
      blanks; and that line, trimmed, is the row. */
  lemma {:induction false} OneRow(lines: seq<string>)
    ensures |Rows(lines)| == 1 <==>
      exists i :: 0 <= i < |lines| && IsRow(lines[i]) && forall j | 0 <= j < |lines| && j != i :: !IsRow(lines[j])
    ensures forall i | 0 <= i < |lines| && IsRow(lines[i]) && |Rows(lines)| == 1 :: Rows(lines) == [TrimRight(TrimLeft(lines[i]))]
  {
    hide IsRow, TrimLeft, TrimRight;
    if lines != [] {
      var rest := lines[1..];
      NoRow(rest);
      OneRow(rest);
      assert forall i | 1 <= i < |lines| :: lines[i] == rest[i - 1];
      if IsRow(lines[0]) {
        if Rows(rest) == [] {
          assert forall j | 1 <= j < |lines| :: !IsRow(lines[j]);
        } else {
          var k :| 0 <= k < |rest| && IsRow(rest[k]);
          assert IsRow(lines[k + 1]);
        }
      } else if |Rows(rest)| == 1 {
        var k :| 0 <= k < |rest| && IsRow(rest[k]) && forall j | 0 <= j < |rest| && j != k :: !IsRow(rest[j]);
        assert IsRow(lines[k + 1]);
        assert forall j | 1 <= j < |lines| && j != k + 1 :: !IsRow(lines[j]);
      }
    }
  }
}
