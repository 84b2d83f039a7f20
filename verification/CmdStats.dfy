/**
 Per-command transaction statistics
 (tools/pico_ltc_emulator/firmware/src/ltc6811_emu.c, cmd_stats_record and friends).
 */
module CmdStats {
  import opened CellChain
  import opened Pec15

  const CAPACITY := 24
  const U32_RANGE := 0x1_0000_0000

  /** 32-bit counters wrap around. */
  function Bump(n: nat): nat {
    (n + 1) % U32_RANGE
  }

  datatype Stat = Stat(cmd: Word, count: nat, lastLen: U16, minLen: U16, maxLen: U16)

  datatype Stats = Stats(entries: seq<Stat>, lost: nat)

  const NO_STATS := Stats([], 0)

  /** One closed transaction: its command and the byte count attributed to it. */
  datatype Closed = Closed(cmd: Word, len: U16)

  predicate Listed(es: seq<Stat>, cmd: Word) {
    exists i :: 0 <= i < |es| && es[i].cmd == cmd
  }

  function IndexOf(es: seq<Stat>, cmd: Word): (i: nat)
    ensures i <= |es|
    ensures i < |es| ==> es[i].cmd == cmd
    ensures forall j :: 0 <= j < i ==> es[j].cmd != cmd
  {
    if es == [] then 0
    else if es[0].cmd == cmd then 0
    else 1 + IndexOf(es[1..], cmd)
  }

  function Updated(e: Stat, len: U16): Stat {
    Stat(e.cmd, Bump(e.count), len,
         if len < e.minLen then len else e.minLen,
         if len > e.maxLen then len else e.maxLen)
  }

  function Record(s: Stats, cmd: Word, len: U16): Stats {
    var i := IndexOf(s.entries, cmd);
    if i < |s.entries| then s.(entries := s.entries[i := Updated(s.entries[i], len)])
    else if |s.entries| < CAPACITY then s.(entries := s.entries + [Stat(cmd, 1, len, len, len)])
    else s.(lost := Bump(s.lost))
  }

  function RecordAll(h: seq<Closed>): Stats {
    if h == [] then NO_STATS
    else Record(RecordAll(h[..|h| - 1]), h[|h| - 1].cmd, h[|h| - 1].len)
  }

  // ----- What the counters mean -----------------------------------------------

  /** The lengths of the transactions of one command, oldest first. */
  function Lengths(h: seq<Closed>, cmd: Word): (ls: seq<U16>) {
    if h == [] then []
    else
      var rest := Lengths(h[..|h| - 1], cmd);
      if h[|h| - 1].cmd == cmd then rest + [h[|h| - 1].len] else rest
  }

  /** How many transactions were of a command without an entry. */
  function Unlisted(h: seq<Closed>, es: seq<Stat>): nat {
    if h == [] then 0
    else Unlisted(h[..|h| - 1], es) + (if Listed(es, h[|h| - 1].cmd) then 0 else 1)
  }

  predicate IsMin(m: int, ls: seq<U16>) {
    m in ls && forall i :: 0 <= i < |ls| ==> m <= ls[i]
  }

  predicate IsMax(m: int, ls: seq<U16>) {
    m in ls && forall i :: 0 <= i < |ls| ==> ls[i] <= m
  }

  /** An entry tells the truth about every transaction of its command. */
  predicate Truthful(e: Stat, h: seq<Closed>) {
    var ls := Lengths(h, e.cmd);
    && ls != []
    && e.count == |ls| % U32_RANGE
    && e.lastLen == ls[|ls| - 1]
    && IsMin(e.minLen, ls)
    && IsMax(e.maxLen, ls)
  }

  predicate Distinct(es: seq<Stat>) {
    forall i, j :: 0 <= i < j < |es| ==> es[i].cmd != es[j].cmd
  }

  predicate Accounts(s: Stats, h: seq<Closed>) {
    && |s.entries| <= CAPACITY
    && Distinct(s.entries)
    && (forall i :: 0 <= i < |s.entries| ==> Truthful(s.entries[i], h))
    && s.lost == Unlisted(h, s.entries) % U32_RANGE
    && (|s.entries| < CAPACITY ==> Unlisted(h, s.entries) == 0)
  }

  lemma {:induction false} UnlistedHasNoLengths(h: seq<Closed>, es: seq<Stat>, cmd: Word)
    requires Unlisted(h, es) == 0 && !Listed(es, cmd)
    ensures Lengths(h, cmd) == []
    decreases |h|
  {
    if h != [] {
      UnlistedHasNoLengths(h[..|h| - 1], es, cmd);
    }
  }

  lemma {:induction false} UnlistedOfMore(h: seq<Closed>, es: seq<Stat>, more: seq<Stat>)
    requires Unlisted(h, es) == 0
    requires forall c: Word :: Listed(es, c) ==> Listed(more, c)
    ensures Unlisted(h, more) == 0
    decreases |h|
  {
    if h != [] {
      UnlistedOfMore(h[..|h| - 1], es, more);
    }
  }

  lemma {:induction false} UnlistedSameNames(h: seq<Closed>, es: seq<Stat>, fs: seq<Stat>)
    requires forall c: Word :: Listed(es, c) == Listed(fs, c)
    ensures Unlisted(h, es) == Unlisted(h, fs)
    decreases |h|
  {
    if h != [] {
      UnlistedSameNames(h[..|h| - 1], es, fs);
    }
  }

  lemma UnlistedSnoc(h: seq<Closed>, c: Closed, es: seq<Stat>)
    ensures Unlisted(h + [c], es) == Unlisted(h, es) + (if Listed(es, c.cmd) then 0 else 1)
  {
    assert (h + [c])[..|h|] == h;
  }

  lemma TruthfulElsewhere(e: Stat, h: seq<Closed>, c: Closed)
    requires Truthful(e, h) && e.cmd != c.cmd
    ensures Truthful(e, h + [c])
  {
    assert (h + [c])[..|h|] == h;
  }

  lemma TruthfulUpdate(e: Stat, h: seq<Closed>, len: U16)
    requires Truthful(e, h)
    ensures Truthful(Updated(e, len), h + [Closed(e.cmd, len)])
  {
    var c := Closed(e.cmd, len);
    assert (h + [c])[..|h|] == h;
    var ls := Lengths(h, e.cmd);
    var next := Lengths(h + [c], e.cmd);
    assert next == ls + [len];
    assert next[|ls|] == len;
    assert forall i :: 0 <= i < |ls| ==> next[i] == ls[i];
    assert forall m :: m in ls ==> m in next;
    BumpMod(|ls|);
  }

  lemma BumpMod(n: nat)
    ensures Bump(n % U32_RANGE) == (n + 1) % U32_RANGE
  {
  }

  lemma ExistingTruthful(es: seq<Stat>, h: seq<Closed>, i: nat, c: Closed)
    requires i < |es| && es[i].cmd == c.cmd && Distinct(es)
    requires forall j :: 0 <= j < |es| ==> Truthful(es[j], h)
    ensures var next := es[i := Updated(es[i], c.len)];
      forall j :: 0 <= j < |next| ==> Truthful(next[j], h + [c])
  {
    hide Truthful, Updated;
    var next := es[i := Updated(es[i], c.len)];
    forall j | 0 <= j < |next|
      ensures Truthful(next[j], h + [c])
    {
      if j == i {
        TruthfulUpdate(es[i], h, c.len);
      } else {
        TruthfulElsewhere(es[j], h, c);
      }
    }
  }

  lemma RecordExisting(s: Stats, h: seq<Closed>, cmd: Word, len: U16)
    requires Accounts(s, h) && IndexOf(s.entries, cmd) < |s.entries|
    ensures Accounts(Record(s, cmd, len), h + [Closed(cmd, len)])
  {
    var c := Closed(cmd, len);
    var i := IndexOf(s.entries, cmd);
    var es := s.entries[i := Updated(s.entries[i], len)];
    ExistingTruthful(s.entries, h, i, c);
    SameNames(s.entries, i, Updated(s.entries[i], len));
    UnlistedSnoc(h, c, es);
    assert Listed(es, cmd);
    hide Truthful, Lengths, Updated, Unlisted, Listed, Distinct;
    UnlistedSameNames(h, es, s.entries);
  }

  lemma SameNames(es: seq<Stat>, i: nat, e: Stat)
    requires i < |es| && e.cmd == es[i].cmd
    ensures Distinct(es) ==> Distinct(es[i := e])
    ensures forall x: Word :: Listed(es[i := e], x) == Listed(es, x)
    ensures Listed(es[i := e], e.cmd)
  {
    var next := es[i := e];
    assert forall j :: 0 <= j < |es| ==> next[j].cmd == es[j].cmd;
    forall x: Word ensures Listed(next, x) == Listed(es, x) {
      if Listed(es, x) {
        var k :| 0 <= k < |es| && es[k].cmd == x;
        assert next[k].cmd == x;
      }
    }
    assert next[i].cmd == e.cmd;
  }

  lemma FirstTruth(h: seq<Closed>, cmd: Word, len: U16)
    requires Lengths(h, cmd) == []
    ensures Truthful(Stat(cmd, 1, len, len, len), h + [Closed(cmd, len)])
  {
    assert (h + [Closed(cmd, len)])[..|h|] == h;
    assert Lengths(h + [Closed(cmd, len)], cmd) == [len];
  }

  lemma RecordNew(s: Stats, h: seq<Closed>, cmd: Word, len: U16)
    requires Accounts(s, h) && IndexOf(s.entries, cmd) == |s.entries| < CAPACITY
    ensures Accounts(Record(s, cmd, len), h + [Closed(cmd, len)])
  {
    var c := Closed(cmd, len);
    var e := Stat(cmd, 1, len, len, len);
    var es := s.entries + [e];
    assert !Listed(s.entries, cmd);
    UnlistedHasNoLengths(h, s.entries, cmd);
    UnlistedSnoc(h, c, es);
    FirstTruth(h, cmd, len);
    hide Truthful, Lengths, Unlisted;
    forall j | 0 <= j < |es|
      ensures Truthful(es[j], h + [c])
    {
      if j < |s.entries| {
        TruthfulElsewhere(s.entries[j], h, c);
      }
    }
    forall x: Word | Listed(s.entries, x)
      ensures Listed(es, x)
    {
      var k :| 0 <= k < |s.entries| && s.entries[k].cmd == x;
      assert es[k].cmd == x;
    }
    UnlistedOfMore(h, s.entries, es);
    assert es[|s.entries|].cmd == cmd;
  }

  lemma RecordLost(s: Stats, h: seq<Closed>, cmd: Word, len: U16)
    requires Accounts(s, h) && IndexOf(s.entries, cmd) == |s.entries| == CAPACITY
    ensures Accounts(Record(s, cmd, len), h + [Closed(cmd, len)])
  {
    var c := Closed(cmd, len);
    assert !Listed(s.entries, cmd);
    assert (h + [c])[..|h|] == h;
    BumpMod(Unlisted(h, s.entries));
    forall j | 0 <= j < |s.entries|
      ensures Truthful(s.entries[j], h + [c])
    {
      TruthfulElsewhere(s.entries[j], h, c);
    }
  }

  /** After any history of closed transactions the table accounts for all of them. */
  lemma {:induction false} StatsAccount(h: seq<Closed>)
    ensures Accounts(RecordAll(h), h)
    ensures |RecordAll(h).entries| <= 24
    decreases |h|
  {
    if h != [] {
      var g, c := h[..|h| - 1], h[|h| - 1];
      StatsAccount(g);
      assert h == g + [c];
      var s := RecordAll(g);
      if IndexOf(s.entries, c.cmd) < |s.entries| {
        RecordExisting(s, g, c.cmd, c.len);
      } else if |s.entries| < CAPACITY {
        RecordNew(s, g, c.cmd, c.len);
      } else {
        RecordLost(s, g, c.cmd, c.len);
      }
    }
  }

  // ----- Conservation ---------------------------------------------------------

  function SumCounts(es: seq<Stat>): nat {
    if es == [] then 0 else SumCounts(es[..|es| - 1]) + es[|es| - 1].count
  }

  lemma {:induction false} SumAfterUpdate(es: seq<Stat>, i: nat, e: Stat)
    requires i < |es|
    ensures SumCounts(es[i := e]) == SumCounts(es) - es[i].count + e.count
    decreases |es|
  {
    var n := |es| - 1;
    if i < n {
      assert es[i := e][..n] == es[..n][i := e];
      SumAfterUpdate(es[..n], i, e);
    } else {
      assert es[i := e][..n] == es[..n];
    }
  }

  /** A counter holds at most the number of transactions seen so far. */
  predicate CountersBounded(s: Stats, n: nat) {
    s.lost <= n && forall i :: 0 <= i < |s.entries| ==> s.entries[i].count <= n
  }

  lemma BumpSmall(n: nat)
    requires n + 1 < U32_RANGE
    ensures Bump(n) == n + 1
  {
  }

  lemma CountUp(s: Stats, i: nat, len: U16, n: nat)
    requires n + 1 < U32_RANGE && i < |s.entries|
    requires SumCounts(s.entries) + s.lost == n && CountersBounded(s, n)
    ensures var t := s.(entries := s.entries[i := Updated(s.entries[i], len)]);
      SumCounts(t.entries) + t.lost == n + 1 && CountersBounded(t, n + 1)
  {
    BumpSmall(s.entries[i].count);
    var e := Updated(s.entries[i], len);
    assert e.count == s.entries[i].count + 1;
    hide Bump, Updated, SumCounts;
    SumAfterUpdate(s.entries, i, e);
  }

  lemma CountNew(s: Stats, e: Stat, n: nat)
    requires e.count == 1 && SumCounts(s.entries) + s.lost == n && CountersBounded(s, n)
    ensures var t := s.(entries := s.entries + [e]);
      SumCounts(t.entries) + t.lost == n + 1 && CountersBounded(t, n + 1)
  {
    var es := s.entries + [e];
    assert es[..|s.entries|] == s.entries;
  }

  lemma CountLost(s: Stats, n: nat)
    requires n + 1 < U32_RANGE && SumCounts(s.entries) + s.lost == n && CountersBounded(s, n)
    ensures var t := s.(lost := Bump(s.lost));
      SumCounts(t.entries) + t.lost == n + 1 && CountersBounded(t, n + 1)
  {
    hide Bump, SumCounts;
    BumpSmall(s.lost);
  }

  lemma ConserveStep(s: Stats, cmd: Word, len: U16, n: nat)
    requires n + 1 < U32_RANGE
    requires SumCounts(s.entries) + s.lost == n && CountersBounded(s, n)
    ensures var t := Record(s, cmd, len);
      SumCounts(t.entries) + t.lost == n + 1 && CountersBounded(t, n + 1)
  {
    hide Bump, Updated, SumCounts, CountersBounded, IndexOf;
    var i := IndexOf(s.entries, cmd);
    if i < |s.entries| {
      CountUp(s, i, len, n);
    } else if |s.entries| < CAPACITY {
      CountNew(s, Stat(cmd, 1, len, len, len), n);
    } else {
      CountLost(s, n);
    }
  }

  /** Every closed transaction is counted exactly once, until a counter can wrap. */
  lemma {:induction false} CountsConserved(h: seq<Closed>)
    requires |h| < U32_RANGE
    ensures var s := RecordAll(h); SumCounts(s.entries) + s.lost == |h|
    ensures CountersBounded(RecordAll(h), |h|)
    decreases |h|
  {
    hide Record;
    if h != [] {
      CountsConserved(h[..|h| - 1]);
      ConserveStep(RecordAll(h[..|h| - 1]), h[|h| - 1].cmd, h[|h| - 1].len, |h| - 1);
    }
  }

  /** cmd_stats_record: scan for the command, else claim a free entry, else count a loss. */
  method RecordClosed(s: Stats, cmd: Word, len: U16) returns (t: Stats)
    ensures t == Record(s, cmd, len)
  {
    t := s;
    var i := 0;
    while i < |t.entries|
      invariant 0 <= i <= |t.entries| && t == s
      invariant forall j :: 0 <= j < i ==> t.entries[j].cmd != cmd
    {
      if t.entries[i].cmd == cmd {
        FirstIndex(t.entries, cmd, i);
        t := t.(entries := t.entries[i := Updated(t.entries[i], len)]);
        return;
      }
      i := i + 1;
    }
    if |t.entries| < CAPACITY {
      t := t.(entries := t.entries + [Stat(cmd, 1, len, len, len)]);
    } else {
      t := t.(lost := Bump(t.lost));
    }
  }

  lemma FirstIndex(es: seq<Stat>, cmd: Word, i: nat)
    requires i < |es| && es[i].cmd == cmd
    requires forall j :: 0 <= j < i ==> es[j].cmd != cmd
    ensures IndexOf(es, cmd) == i
  {
    var k := IndexOf(es, cmd);
    assert k <= i;
  }
}
