/** Every interleaving of the tracer's reader threads, its subscribers and their consumers.
    Numbering, keeping and fanning out a frame are separate steps of a reader; other threads
    run between them. */
module TracerRuns {
  import opened Wrappers
  import opened CanTracer

  /** Where a bus's reader is: between frames, or holding one it has numbered or also kept. */
  datatype Phase = Idle | Numbered(frame: Frame) | Kept(frame: Frame)

  /** The readers' side: where each one is, the ring buffers, the counter, and every frame
      numbered so far, in order. */
  datatype Desk = Desk(readers: map<Bus, Phase>, history: map<Bus, seq<Frame>>, numbered: nat, issued: seq<Frame>)

  /** When a subscription ended: how many frames had been fanned out, how many its consumer had
      taken, and whether its queue was full. */
  datatype End = End(at: nat, taken: nat, full: bool)

  /** A subscription's own account: where in the fan-out order it began, what was taken. */
  datatype Line = Line(from: nat, taken: nat, end: Option<End>)

  /** The subscribers' side: the queues, every frame fanned out so far, in order, and an account
      for each queue. */
  datatype Floor = Floor(hub: Hub, order: seq<Frame>, lines: map<nat, Line>)

  datatype Sys = Sys(desk: Desk, floor: Floor)

  datatype Event =
    | Receive(bus: Bus, data: seq<int>)
    | Keep(bus: Bus)
    | Fan(bus: Bus)
    | Join(maxsize: int)
    | Part(queue: nat)
    | Get(queue: nat)

  // ---------------------------------------------------------------- steps

  function Receiving(d: Desk, bus: Bus, data: seq<int>): Desk {
    var f := Frame(d.numbered + 1, bus, data);
    d.(numbered := d.numbered + 1, issued := d.issued + [f], readers := d.readers[bus := Numbered(f)])
  }

  function Keeping(d: Desk, n: nat, bus: Bus): Desk
    requires bus in d.readers && bus in d.history && d.readers[bus].Numbered?
  {
    var f := d.readers[bus].frame;
    d.(history := d.history[bus := Push(d.history[bus], n, f)], readers := d.readers[bus := Kept(f)])
  }

  function Closed(l: Line, at: nat, full: bool): Line {
    if l.end.None? then l.(end := Some(End(at, l.taken, full))) else l
  }

  function Fanning(w: Floor, f: Frame): Floor {
    Floor(FanOut(w.hub, f), w.order + [f],
          map q | q in w.lines ::
            if q in w.hub.subscribers && q in FullQueues(w.hub.queues) then Closed(w.lines[q], |w.order|, true) else w.lines[q])
  }

  function Joining(w: Floor, maxsize: int): Floor {
    w.(hub := Subscribe(w.hub, maxsize), lines := w.lines[|w.hub.queues| := Line(|w.order|, 0, None)])
  }

  function Parting(w: Floor, q: nat): Floor {
    w.(hub := Unsubscribe(w.hub, q),
       lines := if q in w.lines then w.lines[q := Closed(w.lines[q], |w.order|, false)] else w.lines)
  }

  function Getting(w: Floor, q: nat): Floor {
    if q in w.hub.queues && q in w.lines && w.hub.queues[q].items != [] then
      w.(hub := Take(w.hub, q), lines := w.lines[q := w.lines[q].(taken := w.lines[q].taken + 1)])
    else w
  }

  /** An event that its thread is not ready for changes nothing. */
  function Step(s: Sys, n: nat, e: Event): Sys {
    match e
    case Receive(bus, data) =>
      if bus in s.desk.readers && s.desk.readers[bus].Idle? then s.(desk := Receiving(s.desk, bus, data)) else s
    case Keep(bus) =>
      if bus in s.desk.readers && bus in s.desk.history && s.desk.readers[bus].Numbered?
      then s.(desk := Keeping(s.desk, n, bus)) else s
    case Fan(bus) =>
      if bus in s.desk.readers && s.desk.readers[bus].Kept? then
        Sys(s.desk.(readers := s.desk.readers[bus := Idle]), Fanning(s.floor, s.desk.readers[bus].frame))
      else s
    case Join(maxsize) => s.(floor := Joining(s.floor, maxsize))
    case Part(q) => s.(floor := Parting(s.floor, q))
    case Get(q) => s.(floor := Getting(s.floor, q))
  }

  function Start(buses: set<Bus>): Sys {
    Sys(Desk(map b | b in buses :: Idle, map b | b in buses :: [], 0, []), Floor(Hub([], map[]), [], map[]))
  }

  function Run(buses: set<Bus>, n: nat, events: seq<Event>): Sys {
    if events == [] then Start(buses)
    else Step(Run(buses, n, events[..|events| - 1]), n, events[|events| - 1])
  }

  // ---------------------------------------------------------------- numbers and history

  function Of(s: seq<Frame>, bus: Bus): seq<Frame> {
    if s == [] then []
    else Of(s[..|s| - 1], bus) + if s[|s| - 1].bus == bus then [s[|s| - 1]] else []
  }

  lemma OfSnoc(s: seq<Frame>, f: Frame, bus: Bus)
    ensures Of(s + [f], bus) == Of(s, bus) + if f.bus == bus then [f] else []
  {
    assert (s + [f])[..|s|] == s;
  }

  predicate Numbering(d: Desk) {
    && d.numbered == |d.issued|
    && forall k | 0 <= k < |d.issued| :: d.issued[k].number == k + 1
  }

  /** All but the frame that is still in its reader's hand. */
  function Settled(all: seq<Frame>, p: Phase): seq<Frame> {
    if p.Numbered? && all != [] then all[..|all| - 1] else all
  }

  /** One bus: `all` its frames numbered and `out` those fanned out. */
  predicate BusAccount(all: seq<Frame>, out: seq<Frame>, p: Phase, ring: seq<Frame>, n: nat, bus: Bus) {
    && (!p.Idle? ==> p.frame.bus == bus)
    && all == out + (if p.Idle? then [] else [p.frame])
    && ring == LastOf(Settled(all, p), n)
  }

  predicate Buses(d: Desk, order: seq<Frame>, n: nat) {
    && d.readers.Keys == d.history.Keys
    && forall bus | bus in d.readers :: BusAccount(Of(d.issued, bus), Of(order, bus), d.readers[bus], d.history[bus], n, bus)
  }

  // ---------------------------------------------------------------- subscriptions

  function EndOf(l: Line, order: seq<Frame>): nat {
    if l.end.Some? then l.end.value.at else |order|
  }

  /** The queue holds exactly the frames fanned out since the consumer's last, up to now or to
      the end of the subscription. */
  predicate LineAccount(l: Line, queue: Queue, live: bool, order: seq<Frame>) {
    && l.from + l.taken <= EndOf(l, order) <= |order|
    && queue.items == order[l.from + l.taken..EndOf(l, order)]
    && l.end.None? == live
    && (0 < queue.maxsize ==> |queue.items| <= queue.maxsize)
    && (l.end.Some? && l.end.value.full ==> 0 < queue.maxsize && l.end.value.at == l.from + l.end.value.taken + queue.maxsize)
  }

  predicate Lines(w: Floor) {
    && Sound(w.hub)
    && w.lines.Keys == w.hub.queues.Keys
    && forall q | q in w.lines :: LineAccount(w.lines[q], w.hub.queues[q], q in w.hub.subscribers, w.order)
  }

  predicate Good(s: Sys, n: nat) {
    Numbering(s.desk) && Buses(s.desk, s.floor.order, n) && Lines(s.floor)
  }

  // ---------------------------------------------------------------- each step keeps it

  lemma ReceiveKeeps(d: Desk, order: seq<Frame>, n: nat, bus: Bus, data: seq<int>)
    requires Numbering(d) && Buses(d, order, n) && bus in d.readers && d.readers[bus].Idle?
    ensures Numbering(Receiving(d, bus, data)) && Buses(Receiving(d, bus, data), order, n)
  {
    hide LastOf, Of;
    var t := Receiving(d, bus, data);
    forall b | b in t.readers ensures BusAccount(Of(t.issued, b), Of(order, b), t.readers[b], t.history[b], n, b) {
      assert BusAccount(Of(d.issued, b), Of(order, b), d.readers[b], d.history[b], n, b);
      var f := Frame(d.numbered + 1, bus, data);
      OfSnoc(d.issued, f, b);
      if b == bus {
        assert Settled(Of(d.issued, b) + [f], Numbered(f)) == Of(d.issued, b);
      } else {
        assert Of(d.issued, b) + [] == Of(d.issued, b);
      }
    }
  }

  lemma KeepKeeps(d: Desk, order: seq<Frame>, n: nat, bus: Bus)
    requires Numbering(d) && Buses(d, order, n) && bus in d.readers && d.readers[bus].Numbered?
    ensures Numbering(Keeping(d, n, bus)) && Buses(Keeping(d, n, bus), order, n)
  {
    hide LastOf, Push, Of;
    var t := Keeping(d, n, bus);
    forall b | b in t.readers ensures BusAccount(Of(t.issued, b), Of(order, b), t.readers[b], t.history[b], n, b) {
      var p, all := d.readers[b], Of(d.issued, b);
      assert BusAccount(all, Of(order, b), p, d.history[b], n, b);
      if b == bus {
        PushKeepsLast(Settled(all, p), n, p.frame);
        assert Settled(all, p) + [p.frame] == all;
      }
    }
  }

  lemma FanKeepsBuses(d: Desk, order: seq<Frame>, n: nat, bus: Bus)
    requires Numbering(d) && Buses(d, order, n) && bus in d.readers && d.readers[bus].Kept?
    ensures Numbering(d.(readers := d.readers[bus := Idle]))
    ensures Buses(d.(readers := d.readers[bus := Idle]), order + [d.readers[bus].frame], n)
  {
    hide LastOf, Of;
    var t, f := d.(readers := d.readers[bus := Idle]), d.readers[bus].frame;
    assert f.bus == bus;
    forall b | b in t.readers ensures BusAccount(Of(t.issued, b), Of(order + [f], b), t.readers[b], t.history[b], n, b) {
      assert BusAccount(Of(d.issued, b), Of(order, b), d.readers[b], d.history[b], n, b);
      OfSnoc(order, f, b);
    }
  }

  /** One queue at a fan-out. */
  lemma FanKeepsLine(l: Line, queue: Queue, live: bool, order: seq<Frame>, f: Frame)
    requires LineAccount(l, queue, live, order)
    ensures var full := queue.Full();
            LineAccount(if live && full then Closed(l, |order|, true) else l,
                        if live && !full then queue.Put(f) else queue, live && !full, order + [f])
  {
    var out := order + [f];
    assert out[l.from + l.taken..EndOf(l, order)] == order[l.from + l.taken..EndOf(l, order)];
    if live && !queue.Full() {
      assert out[l.from + l.taken..|out|] == order[l.from + l.taken..|order|] + [f];
    }
  }

  lemma FanKeepsLines(w: Floor, f: Frame)
    requires Lines(w)
    ensures Lines(Fanning(w, f)) && Fanning(w, f).order == w.order + [f]
  {
    hide LineAccount, Without;
    var t := Fanning(w, f);
    FanOutSound(w.hub, f);
    WithoutIs(w.hub.subscribers, FullQueues(w.hub.queues));
    forall q | q in t.lines ensures LineAccount(t.lines[q], t.hub.queues[q], q in t.hub.subscribers, t.order) {
      FanKeepsLine(w.lines[q], w.hub.queues[q], q in w.hub.subscribers, w.order, f);
    }
  }

  lemma JoinKeepsLines(w: Floor, maxsize: int)
    requires Lines(w)
    ensures Lines(Joining(w, maxsize)) && Joining(w, maxsize).order == w.order
  {
    var t := Joining(w, maxsize);
    SubscribeSound(w.hub, maxsize);
    hide Sound;
    forall q | q in t.lines ensures LineAccount(t.lines[q], t.hub.queues[q], q in t.hub.subscribers, t.order) {
      if q == |w.hub.queues| {
        assert t.hub.subscribers[|w.hub.subscribers|] == q;
      } else {
        assert LineAccount(w.lines[q], w.hub.queues[q], q in w.hub.subscribers, w.order);
      }
    }
  }

  lemma PartKeepsLine(l: Line, queue: Queue, live: bool, order: seq<Frame>)
    requires LineAccount(l, queue, live, order)
    ensures LineAccount(Closed(l, |order|, false), queue, false, order)
  {}

  lemma PartKeepsLines(w: Floor, gone: nat)
    requires Lines(w)
    ensures Lines(Parting(w, gone)) && Parting(w, gone).order == w.order
  {
    UnsubscribeSound(w.hub, gone);
    RemoveKeeps(w.hub.subscribers, gone);
    hide LineAccount, Sound, Remove, Closed, Distinct;
    var t := Parting(w, gone);
    forall q | q in t.lines ensures LineAccount(t.lines[q], t.hub.queues[q], q in t.hub.subscribers, t.order) {
      if q == gone { PartKeepsLine(w.lines[q], w.hub.queues[q], q in w.hub.subscribers, w.order); }
    }
  }

  lemma GetKeepsLine(l: Line, queue: Queue, live: bool, order: seq<Frame>)
    requires LineAccount(l, queue, live, order) && queue.items != []
    ensures LineAccount(l.(taken := l.taken + 1), queue.Taken(), live, order)
  {
    assert order[l.from + l.taken..EndOf(l, order)][1..] == order[l.from + l.taken + 1..EndOf(l, order)];
  }

  lemma GetKeepsAt(w: Floor, q: nat, p: nat)
    requires Lines(w) && p in w.lines
    ensures var t := Getting(w, q);
            p in t.lines && p in t.hub.queues && LineAccount(t.lines[p], t.hub.queues[p], p in t.hub.subscribers, t.order)
  {
    hide LineAccount, Sound, Queue.Taken;
    if p == q && w.hub.queues[q].items != [] {
      GetKeepsLine(w.lines[q], w.hub.queues[q], q in w.hub.subscribers, w.order);
    }
  }

  lemma GetKeepsLines(w: Floor, q: nat)
    requires Lines(w)
    ensures Lines(Getting(w, q)) && Getting(w, q).order == w.order
  {
    TakeSound(w.hub, q);
    hide LineAccount, Sound, Queue.Taken;
    var t := Getting(w, q);
    assert t.lines.Keys == w.lines.Keys && t.hub.queues.Keys == w.hub.queues.Keys;
    forall p | p in t.lines ensures LineAccount(t.lines[p], t.hub.queues[p], p in t.hub.subscribers, t.order) {
      GetKeepsAt(w, q, p);
    }
  }

  lemma StepKeepsGood(s: Sys, n: nat, e: Event)
    requires Good(s, n)
    ensures Good(Step(s, n, e), n)
  {
    hide Numbering, Buses, Lines, Fanning, Joining, Parting, Getting, Receiving, Keeping;
    match e
    case Receive(bus, data) =>
      if bus in s.desk.readers && s.desk.readers[bus].Idle? { ReceiveKeeps(s.desk, s.floor.order, n, bus, data); }
    case Keep(bus) =>
      if bus in s.desk.readers && bus in s.desk.history && s.desk.readers[bus].Numbered? {
        KeepKeeps(s.desk, s.floor.order, n, bus);
      }
    case Fan(bus) =>
      if bus in s.desk.readers && s.desk.readers[bus].Kept? {
        FanKeepsBuses(s.desk, s.floor.order, n, bus);
        FanKeepsLines(s.floor, s.desk.readers[bus].frame);
      }
    case Join(maxsize) =>
      JoinKeepsLines(s.floor, maxsize);
    case Part(q) =>
      PartKeepsLines(s.floor, q);
    case Get(q) =>
      GetKeepsLines(s.floor, q);
  }

  /** The accounts hold in every run. */
  lemma {:induction false} EveryRun(buses: set<Bus>, n: nat, events: seq<Event>)
    ensures Good(Run(buses, n, events), n)
    decreases |events|
  {
    if events != [] {
      hide Good, Step;
      EveryRun(buses, n, events[..|events| - 1]);
      StepKeepsGood(Run(buses, n, events[..|events| - 1]), n, events[|events| - 1]);
    }
  }

  // ---------------------------------------------------------------- what it means

  /** What a subscriber has been given, taken or still queued, is the gap-free run of the
      fan-out order from its subscription to now, or to its first overflow or its leaving. */
  lemma SubscriberSeesARun(buses: set<Bus>, n: nat, events: seq<Event>, q: nat)
    requires q in Run(buses, n, events).floor.hub.queues
    ensures var w := Run(buses, n, events).floor;
            && q in w.lines
            && var l := w.lines[q];
            && l.from <= l.from + l.taken <= EndOf(l, w.order) <= |w.order|
            && w.order[l.from..l.from + l.taken] + w.hub.queues[q].items == w.order[l.from..EndOf(l, w.order)]
            && (l.end.None? <==> q in w.hub.subscribers)
  {
    EveryRun(buses, n, events);
    var w := Run(buses, n, events).floor;
    assert LineAccount(w.lines[q], w.hub.queues[q], q in w.hub.subscribers, w.order);
  }

  /** A subscriber is cut off for overflow only with `maxsize` frames waiting; an unbounded
      one never is. */
  lemma OverflowNeedsAFullQueue(buses: set<Bus>, n: nat, events: seq<Event>, q: nat)
    requires var w := Run(buses, n, events).floor;
             q in w.lines && w.lines[q].end.Some? && w.lines[q].end.value.full
    ensures var w := Run(buses, n, events).floor;
            q in w.hub.queues &&
            var end, max := w.lines[q].end.value, w.hub.queues[q].maxsize;
            0 < max && end.at - (w.lines[q].from + end.taken) == max
  {
    EveryRun(buses, n, events);
    var w := Run(buses, n, events).floor;
    assert LineAccount(w.lines[q], w.hub.queues[q], q in w.hub.subscribers, w.order);
  }

  lemma {:induction false} OfIncreases(s: seq<Frame>, bus: Bus)
    requires forall k | 0 <= k < |s| :: s[k].number == k + 1
    ensures forall i, j | 0 <= i < j < |Of(s, bus)| :: Of(s, bus)[i].number < Of(s, bus)[j].number
    ensures forall i | 0 <= i < |Of(s, bus)| :: Of(s, bus)[i].number <= |s| && Of(s, bus)[i].bus == bus
  {
    if s != [] { OfIncreases(s[..|s| - 1], bus); }
  }

  /** Numbers are globally unique and rise strictly along each bus; and a bus's frames are fanned
      out in the order received. */
  lemma NumbersRise(buses: set<Bus>, n: nat, events: seq<Event>, bus: Bus)
    requires bus in Run(buses, n, events).desk.readers
    ensures var d, order := Run(buses, n, events).desk, Run(buses, n, events).floor.order;
            && (forall i, j | 0 <= i < j < |d.issued| :: d.issued[i].number != d.issued[j].number)
            && Of(order, bus) <= Of(d.issued, bus)
            && (forall i, j | 0 <= i < j < |Of(d.issued, bus)| :: Of(d.issued, bus)[i].number < Of(d.issued, bus)[j].number)
  {
    EveryRun(buses, n, events);
    var d, order := Run(buses, n, events).desk, Run(buses, n, events).floor.order;
    assert BusAccount(Of(d.issued, bus), Of(order, bus), d.readers[bus], d.history[bus], n, bus);
    OfIncreases(d.issued, bus);
  }

  /** Each bus's history is the last `n` of the frames received on it, but for at most one that
      its reader has numbered and not yet kept. */
  lemma HistoryIsLast(buses: set<Bus>, n: nat, events: seq<Event>, bus: Bus)
    requires bus in Run(buses, n, events).desk.readers
    ensures var d := Run(buses, n, events).desk;
            var p, all := d.readers[bus], Of(d.issued, bus);
            && bus in d.history
            && d.history[bus] == LastOf(Settled(all, p), n)
            && all == Settled(all, p) + if p.Numbered? then [p.frame] else []
  {
    EveryRun(buses, n, events);
    var d, order := Run(buses, n, events).desk, Run(buses, n, events).floor.order;
    assert BusAccount(Of(d.issued, bus), Of(order, bus), d.readers[bus], d.history[bus], n, bus);
  }
}
