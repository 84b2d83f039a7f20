/** The CAN tracer (dashboard/can_tracer.py): one reader thread per bus numbers each frame,
    keeps it in that bus's ring buffer and hands it to every live subscriber. */
module CanTracer {
  import opened Wrappers

  type Bus = string

  /** A decoded frame; `data` stands for everything but its number and its bus. */
  datatype Frame = Frame(number: int, bus: Bus, data: seq<int>)

  /** A bounded queue; a bound of zero or less is no bound. */
  datatype Queue = Queue(maxsize: int, items: seq<Frame>) {
    predicate Full() { 0 < maxsize <= |items| }
    function Put(f: Frame): Queue { this.(items := items + [f]) }
    function Taken(): Queue { if items == [] then this else this.(items := items[1..]) }
  }

  /** The subscriber list, and every queue ever handed out, by identity. */
  datatype Hub = Hub(subscribers: seq<nat>, queues: map<nat, Queue>)

  predicate Distinct(s: seq<nat>) {
    forall i, j | 0 <= i < j < |s| :: s[i] != s[j]
  }

  predicate Sound(h: Hub) {
    && Distinct(h.subscribers)
    && (forall k | 0 <= k < |h.subscribers| :: h.subscribers[k] in h.queues)
    && (forall q | q in h.queues :: q < |h.queues|)
  }

  // ---------------------------------------------------------------- subscribing

  function Remove(s: seq<nat>, q: nat): seq<nat> {
    if s == [] then [] else if s[0] == q then s[1..] else [s[0]] + Remove(s[1..], q)
  }

  lemma {:induction false} RemoveKeeps(s: seq<nat>, q: nat)
    requires Distinct(s)
    ensures Distinct(Remove(s, q))
    ensures forall x :: x in Remove(s, q) <==> x in s && x != q
  {
    if s != [] {
      assert Distinct(s[1..]);
      assert forall x :: x in s <==> x == s[0] || x in s[1..];
      assert s[0] !in s[1..];
      RemoveKeeps(s[1..], q);
      if s[0] != q {
        var r := Remove(s[1..], q);
        assert s[0] !in r;
        assert forall x :: x in [s[0]] + r <==> x == s[0] || x in r;
      }
    }
  }

  function Subscribe(h: Hub, maxsize: int): Hub {
    Hub(h.subscribers + [|h.queues|], h.queues[|h.queues| := Queue(maxsize, [])])
  }

  function Unsubscribe(h: Hub, q: nat): Hub {
    h.(subscribers := Remove(h.subscribers, q))
  }

  function Take(h: Hub, q: nat): Hub {
    if q in h.queues then h.(queues := h.queues[q := h.queues[q].Taken()]) else h
  }

  // ---------------------------------------------------------------- fanning out

  /** Every live subscriber with room gets the frame, */
  function Delivered(queues: map<nat, Queue>, subscribers: seq<nat>, f: Frame): map<nat, Queue> {
    map q | q in queues :: if q in subscribers && !queues[q].Full() then queues[q].Put(f) else queues[q]
  }

  lemma DeliverOneMore(queues: map<nat, Queue>, s: seq<nat>, q: nat, f: Frame)
    requires q !in s && q in queues
    ensures Delivered(queues, s, f)[q] == queues[q]
    ensures Delivered(queues, s + [q], f) ==
            if queues[q].Full() then Delivered(queues, s, f) else Delivered(queues, s, f)[q := queues[q].Put(f)]
  {
    assert forall x :: x in s + [q] <==> x in s || x == q;
  }

  function Without(s: seq<nat>, gone: set<nat>): seq<nat> {
    if s == [] then [] else (if s[0] in gone then [] else [s[0]]) + Without(s[1..], gone)
  }

  function FullQueues(queues: map<nat, Queue>): set<nat> {
    set q | q in queues && queues[q].Full()
  }

  /** and those without are dropped. */
  function FanOut(h: Hub, f: Frame): Hub {
    Hub(Without(h.subscribers, FullQueues(h.queues)), Delivered(h.queues, h.subscribers, f))
  }

  function Members(s: seq<nat>): set<nat> { set q | q in s }

  lemma {:induction false} WithoutIs(s: seq<nat>, gone: set<nat>)
    ensures forall x :: x in Without(s, gone) <==> x in s && x !in gone
    ensures Distinct(s) ==> Distinct(Without(s, gone))
  {
    if s != [] {
      WithoutIs(s[1..], gone);
      var r := Without(s[1..], gone);
      assert forall x :: x in s <==> x == s[0] || x in s[1..];
      assert forall x :: x in [s[0]] + r <==> x == s[0] || x in r;
      if Distinct(s) {
        assert Distinct(s[1..]) && s[0] !in s[1..];
        assert s[0] !in r;
      }
    }
  }

  lemma {:induction false} WithoutAgrees(s: seq<nat>, a: set<nat>, b: set<nat>)
    requires forall x | x in s :: x in a <==> x in b
    ensures Without(s, a) == Without(s, b)
  {
    if s != [] {
      assert s[0] in s;
      WithoutAgrees(s[1..], a, b);
    }
  }

  lemma {:induction false} WithoutNone(s: seq<nat>)
    ensures Without(s, {}) == s
  {
    if s != [] { WithoutNone(s[1..]); }
  }

  lemma {:induction false} RemoveFromWithout(s: seq<nat>, gone: set<nat>, q: nat)
    requires Distinct(s)
    ensures Remove(Without(s, gone), q) == Without(s, gone + {q})
  {
    if s != [] {
      assert Distinct(s[1..]) && s[0] !in s[1..];
      RemoveFromWithout(s[1..], gone, q);
      var r := Without(s[1..], gone);
      if s[0] in gone {
        assert Without(s, gone) == r;
      } else {
        assert Without(s, gone) == [s[0]] + r && ([s[0]] + r)[1..] == r;
        if s[0] == q {
          WithoutAgrees(s[1..], gone, gone + {q});
          assert Without(s, gone + {q}) == r;
        } else {
          assert Without(s, gone + {q}) == [s[0]] + Without(s[1..], gone + {q});
        }
      }
    }
  }

  lemma FanOutSound(h: Hub, f: Frame)
    requires Sound(h)
    ensures Sound(FanOut(h, f))
  {
    WithoutIs(h.subscribers, FullQueues(h.queues));
    var n := FanOut(h, f);
    assert n.queues.Keys == h.queues.Keys;
    assert |n.queues| == |n.queues.Keys| == |h.queues.Keys| == |h.queues|;
    forall k | 0 <= k < |n.subscribers| ensures n.subscribers[k] in n.queues {
      assert n.subscribers[k] in n.subscribers;
    }
  }

  lemma SubscribeSound(h: Hub, maxsize: int)
    requires Sound(h)
    ensures |h.queues| !in h.queues
    ensures Sound(Subscribe(h, maxsize))
  {
    var n := Subscribe(h, maxsize);
    assert |h.queues| !in h.queues;
    assert n.queues.Keys == h.queues.Keys + {|h.queues|};
    assert |n.queues| == |n.queues.Keys| == |h.queues| + 1;
  }

  lemma UnsubscribeSound(h: Hub, q: nat)
    requires Sound(h)
    ensures Sound(Unsubscribe(h, q))
  {
    RemoveKeeps(h.subscribers, q);
    var n := Unsubscribe(h, q);
    forall k | 0 <= k < |n.subscribers| ensures n.subscribers[k] in n.queues {
      assert n.subscribers[k] in n.subscribers;
    }
  }

  lemma TakeSound(h: Hub, q: nat)
    requires Sound(h)
    ensures Sound(Take(h, q))
  {
    if q in h.queues {
      assert Take(h, q).queues.Keys == h.queues.Keys;
      assert |Take(h, q).queues| == |Take(h, q).queues.Keys| == |h.queues.Keys| == |h.queues|;
    }
  }

  lemma FanOutNumbered(history: map<Bus, seq<Frame>>, h: Hub, f: Frame, n: nat)
    requires NumberedUpTo(history, h.queues, n) && 1 <= f.number <= n
    ensures NumberedUpTo(history, FanOut(h, f).queues, n)
  {
  }

  lemma KeepNumbered(history: map<Bus, seq<Frame>>, queues: map<nat, Queue>, f: Frame, ring: seq<Frame>, n: nat)
    requires NumberedUpTo(history, queues, n) && f.bus in history && 1 <= f.number <= n
    requires ring == history[f.bus] + [f] || ring == (history[f.bus] + [f])[1..]
    ensures NumberedUpTo(history[f.bus := ring], queues, n)
  {
    var all := history[f.bus] + [f];
    assert forall k | 0 <= k < |all| :: 1 <= all[k].number <= n;
    assert forall k | 0 <= k < |ring| :: 1 <= ring[k].number <= n;
  }

  // ---------------------------------------------------------------- ring buffers

  function LastOf(s: seq<Frame>, n: nat): seq<Frame> {
    if |s| <= n then s else s[|s| - n..]
  }

  /** Appending to a deque of bounded length. */
  function Push(ring: seq<Frame>, n: nat, f: Frame): seq<Frame> {
    LastOf(ring + [f], n)
  }

  lemma PushKeepsLast(s: seq<Frame>, n: nat, f: Frame)
    ensures Push(LastOf(s, n), n, f) == LastOf(s + [f], n)
  {}

  // ---------------------------------------------------------------- the tracer

  /** Every frame held anywhere carries one of the numbers 1..n. */
  predicate NumberedUpTo(history: map<Bus, seq<Frame>>, queues: map<nat, Queue>, n: nat) {
    && (forall b, k | b in history && 0 <= k < |history[b]| :: 1 <= history[b][k].number <= n)
    && (forall q, k | q in queues && 0 <= k < |queues[q].items| :: 1 <= queues[q].items[k].number <= n)
  }

  /** `list.remove`, with its ValueError swallowed. */
  method RemoveFirst(s: seq<nat>, q: nat) returns (r: seq<nat>)
    ensures r == Remove(s, q)
  {
    var i := 0;
    while i < |s| && s[i] != q
      invariant 0 <= i <= |s|
      invariant forall k | 0 <= k < i :: s[k] != q
    {
      i := i + 1;
    }
    RemoveAt(s, q, i);
    r := if i == |s| then s else s[..i] + s[i + 1..];
  }

  lemma {:induction false} RemoveAt(s: seq<nat>, q: nat, i: nat)
    requires i <= |s| && (i < |s| ==> s[i] == q) && forall k | 0 <= k < i :: s[k] != q
    ensures Remove(s, q) == if i == |s| then s else s[..i] + s[i + 1..]
  {
    if i > 0 {
      RemoveAt(s[1..], q, i - 1);
      assert s == [s[0]] + s[1..];
      assert i < |s| ==> s[..i] + s[i + 1..] == [s[0]] + (s[1..][..i - 1] + s[1..][i..]);
    }
  }

  class Tracer {
    const capacity: nat
    var hub: Hub
    var history: map<Bus, seq<Frame>>
    var numbered: nat

    ghost predicate Valid()
      reads this
    {
      && Sound(hub)
      && (forall b | b in history :: |history[b]| <= capacity)
      && NumberedUpTo(history, hub.queues, numbered)
    }

    constructor (interfaces: seq<Bus>, capacity: nat)
      ensures Valid() && this.capacity == capacity && numbered == 0
      ensures hub == Hub([], map[])
      ensures history == map b | b in interfaces :: []
    {
      this.capacity, numbered, hub := capacity, 0, Hub([], map[]);
      history := map b | b in interfaces :: [];
    }

    /** A queue nobody has had before, empty, and last in the list. */
    method NewQueue(maxsize: int) returns (q: nat)
      requires Valid()
      modifies this`hub
      ensures Valid() && hub == Subscribe(old(hub), maxsize)
      ensures q !in old(hub).queues && hub.subscribers == old(hub).subscribers + [q]
      ensures q in hub.queues && hub.queues[q] == Queue(maxsize, [])
      ensures forall x | x in old(hub).queues :: x in hub.queues && hub.queues[x] == old(hub).queues[x]
    {
      SubscribeSound(hub, maxsize);
      q := |hub.queues|;
      hub := hub.(queues := hub.queues[q := Queue(maxsize, [])]);
      hub := hub.(subscribers := hub.subscribers + [q]);
    }

    /** That queue is off the list, whether or not it was on it; everybody else stays. */
    method Drop(q: nat)
      requires Valid()
      modifies this`hub
      ensures Valid() && hub == Unsubscribe(old(hub), q)
      ensures q !in hub.subscribers && hub.queues == old(hub).queues
      ensures forall x | x != q :: x in hub.subscribers <==> x in old(hub).subscribers
    {
      UnsubscribeSound(hub, q);
      RemoveKeeps(hub.subscribers, q);
      var left := RemoveFirst(hub.subscribers, q);
      hub := hub.(subscribers := left);
    }

    /** Number a frame that arrived on `bus`: no frame held anywhere has that number yet. */
    method Number(bus: Bus, data: seq<int>) returns (f: Frame)
      requires Valid()
      modifies this`numbered
      ensures Valid() && numbered == old(numbered) + 1 && f == Frame(numbered, bus, data)
      ensures forall b, k | b in history && 0 <= k < |history[b]| :: history[b][k].number < f.number
      ensures forall q, k | q in hub.queues && 0 <= k < |hub.queues[q].items| :: hub.queues[q].items[k].number < f.number
    {
      numbered := numbered + 1;
      f := Frame(numbered, bus, data);
    }

    /** Append to the bus's ring, and drop its oldest frame if that made it too long. */
    method Keep(f: Frame)
      requires Valid() && f.bus in history && 1 <= f.number <= numbered
      modifies this`history
      ensures Valid() && history.Keys == old(history).Keys
      ensures history[f.bus] == LastOf(old(history)[f.bus] + [f], capacity)
      ensures forall b | b in history && b != f.bus :: history[b] == old(history)[b]
    {
      hide Sound;
      var ring := history[f.bus] + [f];
      if |ring| > capacity { ring := ring[1..]; }
      assert ring == LastOf(history[f.bus] + [f], capacity);
      KeepNumbered(history, hub.queues, f, ring, numbered);
      hide NumberedUpTo, LastOf;
      history := history[f.bus := ring];
    }

    /** Hand a frame to everybody; a full queue is noted and its subscriber removed afterwards. */
    method Fan(f: Frame)
      requires Valid() && 1 <= f.number <= numbered
      modifies this`hub
      ensures Valid() && hub == FanOut(old(hub), f)
    {
      FanOutSound(hub, f);
      FanOutNumbered(history, hub, f, numbered);
      hide Delivered, FullQueues, NumberedUpTo, Sound;
      var queues, stale := PutAll(f);
      var live := DropAll(stale);
      hub := Hub(live, queues);
    }

    /** The delivery loop. */
    method PutAll(f: Frame) returns (queues: map<nat, Queue>, stale: seq<nat>)
      requires Sound(hub)
      ensures queues == Delivered(hub.queues, hub.subscribers, f)
      ensures forall q | q in hub.subscribers :: q in stale <==> q in FullQueues(hub.queues)
    {
      queues, stale := hub.queues, [];
      assert hub.queues == Delivered(hub.queues, hub.subscribers[..0], f);
      hide Delivered, Queue.Put;
      for i := 0 to |hub.subscribers|
        invariant queues == Delivered(hub.queues, hub.subscribers[..i], f)
        invariant forall q :: q in stale <==> q in hub.subscribers[..i] && hub.queues[q].Full()
      {
        var q := hub.subscribers[i];
        assert hub.subscribers[..i + 1] == hub.subscribers[..i] + [q];
        DeliverOneMore(hub.queues, hub.subscribers[..i], q, f);
        if queues[q].Full() {
          stale := stale + [q];
        } else {
          queues := queues[q := queues[q].Put(f)];
        }
      }
      assert hub.subscribers[..|hub.subscribers|] == hub.subscribers;
    }

    /** The removal loop. */
    method DropAll(stale: seq<nat>) returns (live: seq<nat>)
      requires Sound(hub)
      requires forall q | q in hub.subscribers :: q in stale <==> q in FullQueues(hub.queues)
      ensures live == Without(hub.subscribers, FullQueues(hub.queues))
    {
      live := hub.subscribers;
      WithoutNone(live);
      assert Members(stale[..0]) == {};
      for j := 0 to |stale|
        invariant live == Without(hub.subscribers, Members(stale[..j]))
      {
        RemoveFromWithout(hub.subscribers, Members(stale[..j]), stale[j]);
        assert Members(stale[..j]) + {stale[j]} == Members(stale[..j + 1]);
        live := RemoveFirst(live, stale[j]);
      }
      assert stale[..|stale|] == stale;
      WithoutAgrees(hub.subscribers, Members(stale), FullQueues(hub.queues));
    }
  }
}
