/**
 The host link: byte-at-a-time line assembly, tokenizing and command dispatch of
 tools/pico_ltc_emulator/firmware/src/usb_cmd.c.
 */
module UsbCommand {
  import opened Wrappers
  import opened CellChain
  import opened Pec15
  import Numerals
  import Firmware
  import opened EmulatorDevice

  type HostCommand = Firmware.HostCommand

  const LINE_MAX := 96
  const MAX_ARGS := 8
  const NUL: char := '\0'

  // ----- Line assembly --------------------------------------------------------

  /** What one received byte does to line_buf, and the line it completes, if any. */
  function Feed(buf: string, c: char): (string, seq<string>) {
    if c == '\r' then (buf, [])
    else if c == '\n' then ("", [buf])
    else if |buf| < LINE_MAX - 1 then (buf + [c], [])
    else ("", [])
  }

  function Assemble(buf: string, bytes: string): (string, seq<string>)
    decreases |bytes|
  {
    if bytes == "" then (buf, [])
    else
      var (next, lines) := Feed(buf, bytes[0]);
      var (end, more) := Assemble(next, bytes[1..]);
      (end, lines + more)
  }

  /** On arbitrary bytes the buffer index never passes 95. */
  lemma {:induction false} BufferBounded(buf: string, bytes: string)
    requires |buf| <= 95
    ensures |Assemble(buf, bytes).0| <= 95
    ensures forall l :: l in Assemble(buf, bytes).1 ==> |l| <= 95
    decreases |bytes|
  {
    if bytes != "" {
      BufferBounded(Feed(buf, bytes[0]).0, bytes[1..]);
    }
  }

  predicate Sendable(line: string) {
    |line| <= 95 && forall i :: 0 <= i < |line| ==> line[i] != '\r' && line[i] != '\n'
  }

  function Transmitted(lines: seq<string>): string {
    if lines == [] then "" else lines[0] + "\n" + Transmitted(lines[1..])
  }

  lemma {:induction false} AssembleLine(buf: string, line: string, rest: string)
    requires Sendable(buf + line)
    ensures Assemble(buf, line + "\n" + rest) == (Assemble("", rest).0, [buf + line] + Assemble("", rest).1)
    decreases |line|
  {
    var bytes := line + "\n" + rest;
    if line == "" {
      assert buf + line == buf && bytes[0] == '\n' && bytes[1..] == rest;
    } else {
      assert (buf + line)[|buf|] == line[0];
      assert bytes[0] == line[0] && bytes[1..] == line[1..] + "\n" + rest;
      assert (buf + [line[0]]) + line[1..] == buf + line;
      AssembleLine(buf + [line[0]], line[1..], rest);
      assert Feed(buf, line[0]) == (buf + [line[0]], []);
      var more := Assemble(buf + [line[0]], bytes[1..]).1;
      assert [] + more == more;
    }
  }

  /** Lines of at most 95 characters come out exactly as they were sent. */
  lemma {:induction false} LinesRoundTrip(lines: seq<string>)
    requires forall i :: 0 <= i < |lines| ==> Sendable(lines[i])
    ensures Assemble("", Transmitted(lines)) == ("", lines)
    decreases |lines|
  {
    if lines != [] {
      assert "" + lines[0] == lines[0];
      AssembleLine("", lines[0], Transmitted(lines[1..]));
      LinesRoundTrip(lines[1..]);
      assert [lines[0]] + lines[1..] == lines;
    }
  }

  // ----- Tokens ---------------------------------------------------------------

  predicate IsSpace(c: char) {
    c == ' ' || (9 as char <= c <= 13 as char)
  }

  /** The C string in a buffer: everything before the first NUL. */
  function CString(s: string): (r: string)
    ensures NUL !in r
  {
    if s == "" || s[0] == NUL then "" else [s[0]] + CString(s[1..])
  }

  /** The length of the run of (non-)space characters at the front. */
  function Span(s: string, space: bool): (n: nat)
    ensures n <= |s|
    ensures forall i :: 0 <= i < n ==> IsSpace(s[i]) == space
    ensures n < |s| ==> IsSpace(s[n]) != space
  {
    if s == "" || IsSpace(s[0]) != space then 0 else 1 + Span(s[1..], space)
  }

  /** At most `max` maximal runs of non-space characters. */
  function Tokens(s: string, max: nat): (ts: seq<string>)
    ensures |ts| <= max
    decreases max
  {
    var a := s[Span(s, true)..];
    if max == 0 || a == "" then []
    else
      var n := Span(a, false);
      [a[..n]] + Tokens(if n < |a| then a[n + 1..] else "", max - 1)
  }

  predicate IsWord(t: string) {
    t != "" && forall i :: 0 <= i < |t| ==> !IsSpace(t[i])
  }

  function Joined(ts: seq<string>): string {
    if ts == [] then "" else if |ts| == 1 then ts[0] else ts[0] + " " + Joined(ts[1..])
  }

  lemma SpanIs(s: string, space: bool, n: nat)
    requires n <= |s|
    requires forall i :: 0 <= i < n ==> IsSpace(s[i]) == space
    requires n < |s| ==> IsSpace(s[n]) != space
    ensures Span(s, space) == n
  {
    var k := Span(s, space);
    assert k >= n && k <= n;
  }

  /** What follows a token and the separator that is overwritten by its terminator. */
  function AfterToken(s: string, n: nat): string
    requires n <= |s|
  {
    if n < |s| then s[n + 1..] else ""
  }

  lemma FirstToken(s: string, skip: nat, n: nat, max: nat)
    requires 1 <= max && n >= 1 && skip + n <= |s|
    requires forall i :: 0 <= i < skip ==> IsSpace(s[i])
    requires forall i :: skip <= i < skip + n ==> !IsSpace(s[i])
    requires skip + n < |s| ==> IsSpace(s[skip + n])
    ensures Tokens(s, max) == [s[skip..skip + n]] + Tokens(AfterToken(s, skip + n), max - 1)
  {
    SpanIs(s, true, skip);
    var a := s[skip..];
    SpanIs(a, false, n);
    assert a[..n] == s[skip..skip + n];
    if n < |a| {
      assert a[n + 1..] == s[skip + n + 1..];
    }
  }

  lemma OnlySpaces(s: string, max: nat)
    requires forall i :: 0 <= i < |s| ==> IsSpace(s[i])
    ensures Tokens(s, max) == []
  {
    SpanIs(s, true, |s|);
  }

  /** Tokenizing recovers the words a command line was joined from. */
  lemma {:induction false} TokensOfJoined(ts: seq<string>, max: nat)
    requires |ts| <= max && forall i :: 0 <= i < |ts| ==> IsWord(ts[i])
    ensures Tokens(Joined(ts), max) == ts
    decreases |ts|
  {
    hide Tokens, IsSpace;
    var s := Joined(ts);
    if ts == [] {
      OnlySpaces(s, max);
    } else {
      var t := ts[0];
      assert IsWord(t) && IsSpace(' ') by { SpaceIsSpace(); }
      assert forall i :: 0 <= i < |t| ==> s[i] == t[i];
      FirstToken(s, 0, |t|, max);
      assert s[0..|t|] == t;
      if |ts| > 1 {
        assert AfterToken(s, |t|) == Joined(ts[1..]);
        TokensOfJoined(ts[1..], max - 1);
      } else {
        OnlySpaces("", max - 1);
      }
    }
  }

  lemma SpaceIsSpace()
    ensures IsSpace(' ')
  {
  }

  lemma CStringAfter(text: string, tail: string)
    requires tail != "" && tail[0] == NUL
    ensures CString(text + tail) == CString(text)
    decreases |text|
  {
    if text == "" {
      assert text + tail == tail;
    } else {
      assert (text + tail)[1..] == text[1..] + tail;
      CStringAfter(text[1..], tail);
    }
  }

  lemma {:induction false} CStringPrefix(s: string)
    ensures |CString(s)| <= |s| && CString(s) == s[..|CString(s)|]
    ensures |CString(s)| < |s| ==> s[|CString(s)|] == NUL
  {
    if s != "" && s[0] != NUL { CStringPrefix(s[1..]); }
  }

  /** The word `w` stands at `k`, with its terminator. */
  predicate WordAt(buf: string, k: nat, w: string) {
    k + |w| < |buf| && buf[k..k + |w|] == w && buf[k + |w|] == NUL && NUL !in w
  }

  lemma WordRead(buf: string, k: nat, w: string)
    requires WordAt(buf, k, w)
    ensures k < |buf| && CString(buf[k..]) == w
  {
    assert buf[k..] == w + buf[k + |w|..];
    CStringAfter(w, buf[k + |w|..]);
    CStringPrefix(w);
  }

  /** Skip spaces, or a word, up to the terminator. */
  method SkipWhile(line: array<char>, from: nat, space: bool, ghost end: nat) returns (p: nat)
    requires from <= end < line.Length && line[end] == NUL
    requires forall i :: from <= i < end ==> line[i] != NUL
    ensures from <= p <= end
    ensures forall i :: from <= i < p ==> IsSpace(line[i]) == space
    ensures p < end ==> IsSpace(line[p]) != space
  {
    p := from;
    while line[p] != NUL && IsSpace(line[p]) == space
      invariant from <= p <= end
      invariant forall i :: from <= i < p ==> IsSpace(line[i]) == space
      decreases end - p
    {
      p := p + 1;
    }
  }

  /** Where the scan stands: the words found so far stand where the pointers point, each cut off by a
      NUL before `p`; from `p` on the line is as it was. */
  predicate Scanned(now: string, was: string, argv: seq<nat>, words: seq<string>, p: nat, end: nat) {
    && |now| == |was| && p <= end < |was| && now[p..] == was[p..]
    && |words| == |argv|
    && forall i | 0 <= i < |argv| :: WordAt(now, argv[i], words[i]) && (argv[i] + |words[i]| < p || p == end)
  }

  /** Cutting the line at the end of the word just found disturbs no earlier word. */
  lemma CutScanned(now: string, was: string, argv: seq<nat>, words: seq<string>, p: nat, end: nat, start: nat, stop: nat)
    requires Scanned(now, was, argv, words, p, end) && p <= start < stop <= end && p < end
    requires now[end] == NUL && forall i | start <= i < stop :: now[i] != NUL
    ensures var cut := if stop < end then now[stop := NUL] else now; var q := if stop < end then stop + 1 else stop;
      Scanned(cut, was, argv + [start], words + [now[start..stop]], q, end)
  {
    var cut := if stop < end then now[stop := NUL] else now;
    var q := if stop < end then stop + 1 else stop;
    assert cut[q..] == was[q..] by {
      assert forall i | p <= i < |was| :: now[i] == now[p..][i - p] && was[i] == was[p..][i - p];
    }
    assert cut[start..stop] == now[start..stop];
    forall i | 0 <= i < |argv| ensures WordAt(cut, argv[i], words[i]) {
      assert cut[argv[i]..argv[i] + |words[i]|] == now[argv[i]..argv[i] + |words[i]|];
    }
  }

  lemma SkipScanned(now: string, was: string, argv: seq<nat>, words: seq<string>, p: nat, end: nat, q: nat)
    requires Scanned(now, was, argv, words, p, end) && p < end && p <= q <= end
    ensures Scanned(now, was, argv, words, q, end)
  {
    hide WordAt;
    assert now[q..] == now[p..][q - p..] && was[q..] == was[p..][q - p..];
  }

  /** From `p` on the line still reads as the text did, up to its terminator. */
  lemma Unscanned(now: string, was: string, text: string, argv: seq<nat>, words: seq<string>, p: nat)
    requires text == CString(was) && Scanned(now, was, argv, words, p, |text|)
    ensures |text| < |now|
    ensures now[|text|] == NUL
    ensures forall i | p <= i < |text| :: now[i] == text[i] == text[p..][i - p] && now[i] != NUL
  {
    CStringPrefix(was);
    assert forall i | p <= i < |was| :: now[i] == now[p..][i - p] && was[i] == was[p..][i - p];
    assert forall i | 0 <= i < |text| :: text[i] in text;
  }

  /** What is left after a word that ends at `p`. */
  function AfterWord(text: string, p: nat): string
    requires p <= |text|
  {
    if p < |text| then text[p + 1..] else text[p..]
  }

  lemma Regroup(a: seq<string>, b: seq<string>, c: seq<string>)
    ensures a + (b + c) == a + b + c
  {
  }

  /** The next token of the text is the word found between `start` and `p`. */
  lemma NextWord(now: string, text: string, from: nat, start: nat, p: nat, room: nat)
    requires from <= start < p <= |text| <= |now| && room >= 1
    requires forall i | from <= i < |text| :: now[i] == text[i] == text[from..][i - from]
    requires forall i | from <= i < start :: IsSpace(now[i])
    requires forall i | start <= i < p :: !IsSpace(now[i])
    requires p < |text| ==> IsSpace(now[p])
    ensures Tokens(text[from..], room) == [now[start..p]] + Tokens(AfterWord(text, p), room - 1)
  {
    hide Tokens, IsSpace;
    var rest := text[from..];
    FirstToken(rest, start - from, p - start, room);
    assert rest[start - from..p - from] == now[start..p];
    assert AfterToken(rest, p - from) == AfterWord(text, p);
  }

  lemma TerminatorFound(was: string)
    requires NUL in was
    ensures |CString(was)| < |was|
  {
    CStringPrefix(was);
    assert |CString(was)| == |was| ==> was == CString(was);
  }

  lemma AllWordsRead(now: string, was: string, argv: seq<nat>, words: seq<string>, p: nat, end: nat)
    requires Scanned(now, was, argv, words, p, end)
    ensures |argv| == |words| && forall i | 0 <= i < |argv| :: argv[i] < |now| && CString(now[argv[i]..]) == words[i]
  {
    hide WordAt;
    forall i | 0 <= i < |argv| ensures argv[i] < |now| && CString(now[argv[i]..]) == words[i] {
      WordRead(now, argv[i], words[i]);
    }
  }

  lemma ScanBegins(was: string, end: nat)
    requires end < |was|
    ensures Scanned(was, was, [], [], 0, end)
  {
  }

  /** Skip spaces, and find and cut off the next word, if there is one. */
  method CutWord(line: array<char>, from: nat, ghost was: string, ghost text: string,
                 ghost argv: seq<nat>, ghost words: seq<string>, ghost room: nat)
    returns (found: bool, start: nat, p: nat, ghost word: string)
    requires text == CString(was) && Scanned(line[..], was, argv, words, from, |text|)
    requires from < |text| && room >= 1
    modifies line
    ensures from < p <= |text|
    ensures !found ==> Scanned(line[..], was, argv, words, p, |text|) && Tokens(text[from..], room) == [] && p == |text|
    ensures found ==>
      && Scanned(line[..], was, argv + [start], words + [word], p, |text|)
      && Tokens(text[from..], room) == [word] + Tokens(text[p..], room - 1)
  {
    hide Tokens, IsSpace, Scanned;
    ghost var now, end := line[..], |text|;
    Unscanned(now, was, text, argv, words, from);
    word := "";
    start := SkipWhile(line, from, true, end);
    if line[start] == NUL {
      OnlySpaces(text[from..], room);
      SkipScanned(now, was, argv, words, from, end, start);
      return false, start, start, word;
    }
    p := SkipWhile(line, start, false, end);
    word := now[start..p];
    NextWord(now, text, from, start, p, room);
    CutScanned(now, was, argv, words, from, end, start, p);
    found := true;
    if line[p] != NUL {
      line[p] := NUL;
      p := p + 1;
    }
  }

  /** tokenize: pointers to at most eight words, each cut off in place by a NUL. */
  method Tokenize(line: array<char>) returns (argv: seq<nat>)
    requires NUL in line[..]
    modifies line
    ensures var words := Tokens(CString(old(line[..])), 8);
      |argv| == |words| && forall i | 0 <= i < |argv| :: argv[i] < line.Length && CString(line[argv[i]..]) == words[i]
  {
    hide Tokens, Scanned, CString;
    ghost var was := line[..];
    ghost var text := CString(was);
    ghost var end := |text|;
    TerminatorFound(was);
    ScanBegins(was, end);
    argv := [];
    ghost var words: seq<string> := [];
    var p := 0;
    assert text[0..] == text;
    Unscanned(was, was, text, argv, words, p);
    while line[p] != NUL && |argv| < MAX_ARGS
      invariant 0 <= p <= end < line.Length && |argv| <= MAX_ARGS
      invariant Scanned(line[..], was, argv, words, p, end)
      invariant words + Tokens(text[p..], MAX_ARGS - |argv|) == Tokens(text, MAX_ARGS)
      decreases end - p
    {
      Unscanned(line[..], was, text, argv, words, p);
      var found, start, q, word := CutWord(line, p, was, text, argv, words, MAX_ARGS - |argv|);
      if found {
        Regroup(words, [word], Tokens(text[q..], MAX_ARGS - |argv| - 1));
        argv, words := argv + [start], words + [word];
      } else {
        OnlySpaces(text[q..], MAX_ARGS - |argv|);
      }
      p := q;
    }
    Unscanned(line[..], was, text, argv, words, p);
    if |argv| == MAX_ARGS {
      NoneLeft(text[p..]);
    } else {
      OnlySpaces(text[p..], MAX_ARGS - |argv|);
    }
    AllWordsRead(line[..], was, argv, words, p, end);
    assert forall i | 0 <= i < |argv| :: line[..][argv[i]..] == line[argv[i]..];
  }

  lemma NoneLeft(s: string)
    ensures Tokens(s, 0) == []
  {
  }

  // ----- Dispatch -------------------------------------------------------------

  function UpperChar(c: char): char {
    if 'a' <= c <= 'z' then (c as int - 32) as char else c
  }

  function Upper(s: string): (r: string)
    ensures |r| == |s|
    ensures forall i :: 0 <= i < |s| ==> r[i] == UpperChar(s[i])
  {
    seq(|s|, i requires 0 <= i < |s| => UpperChar(s[i]))
  }

  /** eq: compare against a canonical command name, ignoring the case of the input. */
  method SameName(a: string, name: string) returns (same: bool)
    ensures same == (Upper(a) == name)
  {
    var i := 0;
    while i < |a| && i < |name|
      invariant 0 <= i <= |a| && i <= |name|
      invariant forall k :: 0 <= k < i ==> UpperChar(a[k]) == name[k]
    {
      if UpperChar(a[i]) != name[i] {
        assert Upper(a)[i] != name[i];
        return false;
      }
      i := i + 1;
    }
    same := i == |a| && i == |name|;
    assert same ==> Upper(a) == name;
  }

  datatype Verdict =
    | Ignored                        // blank line
    | Accepted(cmd: HostCommand)     // replies OK, or information only
    | Refused                        // replies ERR
    | Reboots                        // BSL

  predicate InRange(n: Option<int>, lo: int, hi: int) {
    n.Some? && lo <= n.value <= hi
  }

  function SetCellVerdict(argv: seq<string>): Verdict {
    if |argv| != 4 then Refused
    else
      var m, c, v := Numerals.ParseInt(argv[1]), Numerals.ParseInt(argv[2]), Numerals.ParseInt(argv[3]);
      if InRange(m, 0, CHAIN_LEN - 1) && InRange(c, 0, CELLS_PER_LTC - 1) && InRange(v, 0, 0xFFFF)
      then Accepted(Firmware.SetCell(m.value, c.value, v.value)) else Refused
  }

  function SetTempVerdict(argv: seq<string>): Verdict {
    if |argv| != 4 then Refused
    else
      var m, s, v := Numerals.ParseInt(argv[1]), Numerals.ParseInt(argv[2]), Numerals.ParseInt(argv[3]);
      if InRange(m, 0, CHAIN_LEN - 1) && InRange(s, 0, AUX_PER_LTC - 1) && InRange(v, -0x8000, 0x7FFF)
      then Accepted(Firmware.SetTemp(m.value, s.value, v.value)) else Refused
  }

  function SetAllCellsVerdict(argv: seq<string>): Verdict {
    if |argv| != 2 then Refused
    else
      var v := Numerals.ParseInt(argv[1]);
      if InRange(v, 0, 0xFFFF) then Accepted(Firmware.SetAllCells(v.value)) else Refused
  }

  function SetAllTempsVerdict(argv: seq<string>): Verdict {
    if |argv| != 2 then Refused
    else
      var v := Numerals.ParseInt(argv[1]);
      if InRange(v, -0x8000, 0x7FFF) then Accepted(Firmware.SetAllTemps(v.value)) else Refused
  }

  function StopReplyVerdict(argv: seq<string>): Verdict {
    if |argv| != 2 then Refused
    else
      var v := Numerals.ParseInt(argv[1]);
      if InRange(v, 0, 0x1F) then Accepted(Firmware.StopReply(v.value as Byte)) else Refused
  }

  /** The command names, in the order they are tried. */
  const NAMES := [
    "PING", "STATUS", "SET_CELL", "SET_TEMP", "SET_ALL_CELLS", "SET_ALL_TEMPS", "RESET_STATE",
    "STOP_REPLY", "RESUME_ALL", "STATS_CMDS", "STATS_CMDS_RESET", "DUMP", "DUMP_TX", "DUMP_RX", "BSL"
  ]

  /** What a command of that name makes of its arguments. */
  function VerdictOf(name: string, argv: seq<string>): Verdict {
    if name == "SET_CELL" then SetCellVerdict(argv)
    else if name == "SET_TEMP" then SetTempVerdict(argv)
    else if name == "SET_ALL_CELLS" then SetAllCellsVerdict(argv)
    else if name == "SET_ALL_TEMPS" then SetAllTempsVerdict(argv)
    else if name == "RESET_STATE" then Accepted(Firmware.ResetState)
    else if name == "STOP_REPLY" then StopReplyVerdict(argv)
    else if name == "RESUME_ALL" then Accepted(Firmware.ResumeAll)
    else if name == "STATS_CMDS_RESET" then Accepted(Firmware.StatsReset)
    else if name == "PING" || name == "STATUS" || name == "STATS_CMDS" || name == "DUMP" || name == "DUMP_TX" || name == "DUMP_RX"
    then Accepted(Firmware.Query)
    else if name == "BSL" then Reboots
    else Refused
  }

  /** dispatch: the command a tokenized line stands for. */
  function Interpret(argv: seq<string>): Verdict {
    if argv == [] then Ignored else VerdictOf(Upper(argv[0]), argv)
  }

  /** The comparisons of dispatch, in order. */
  method Decide(argv: seq<string>) returns (v: Verdict)
    ensures v == Interpret(argv)
  {
    if argv == [] { return Ignored; }
    for i := 0 to |NAMES|
      invariant Upper(argv[0]) !in NAMES[..i]
    {
      var same := SameName(argv[0], NAMES[i]);
      if same { return VerdictOf(NAMES[i], argv); }
      assert NAMES[..i + 1] == NAMES[..i] + [NAMES[i]];
    }
    assert NAMES[..|NAMES|] == NAMES;
    NoSuchCommand(Upper(argv[0]), argv);
    v := Refused;
  }

  lemma NoSuchCommand(name: string, argv: seq<string>)
    requires name !in NAMES
    ensures VerdictOf(name, argv) == Refused
  {
  }

  function LineVerdict(line: string): Verdict {
    Interpret(Tokens(CString(line), MAX_ARGS))
  }

  // ----- The link as a whole --------------------------------------------------

  /** The console's buffer and everything a command can change. */
  datatype Link = Link(buf: string, chain: Chain, fw: Firmware.Fw)

  predicate SoundLink(l: Link) {
    WellFormed(l.chain) && Firmware.Sound(l.fw) && |l.buf| < LINE_MAX
  }

  function Obeyed(l: Link, line: string): (r: Link)
    requires SoundLink(l)
    ensures SoundLink(r)
  {
    match LineVerdict(line)
    case Accepted(cmd) =>
      var c := Firmware.ApplyChain(l.chain, cmd);
      l.(chain := c, fw := Firmware.Apply(c, l.fw, cmd))
    case _ => l
  }

  function ObeyedAll(l: Link, lines: seq<string>): (r: Link)
    requires SoundLink(l)
    ensures SoundLink(r)
    decreases |lines|
  {
    if lines == [] then l else ObeyedAll(Obeyed(l, lines[0]), lines[1..])
  }

  function Received(l: Link, c: char): (r: Link)
    requires SoundLink(l)
    ensures SoundLink(r)
  {
    FeedBounded(l.buf, c);
    ObeyedAll(l, Feed(l.buf, c).1).(buf := Feed(l.buf, c).0)
  }

  function ReceivedAll(l: Link, bytes: string): (r: Link)
    requires SoundLink(l)
    ensures SoundLink(r)
    decreases |bytes|
  {
    if bytes == "" then l else ReceivedAll(Received(l, bytes[0]), bytes[1..])
  }

  lemma {:induction false} ObeyKeepsBuffer(l: Link, buf: string, lines: seq<string>)
    requires SoundLink(l) && |buf| < LINE_MAX
    ensures ObeyedAll(l.(buf := buf), lines) == ObeyedAll(l, lines).(buf := buf)
    ensures ObeyedAll(l, lines).buf == l.buf
    decreases |lines|
  {
    hide LineVerdict;
    if lines != [] {
      ObeyKeepsBuffer(Obeyed(l, lines[0]), buf, lines[1..]);
    }
  }

  lemma {:induction false} ObeyConcat(l: Link, a: seq<string>, b: seq<string>)
    requires SoundLink(l)
    ensures ObeyedAll(l, a + b) == ObeyedAll(ObeyedAll(l, a), b)
    decreases |a|
  {
    hide Obeyed;
    if a == [] {
      assert a + b == b;
    } else {
      assert (a + b)[1..] == a[1..] + b;
      ObeyConcat(Obeyed(l, a[0]), a[1..], b);
    }
  }

  /** Byte-at-a-time reception obeys exactly the assembled lines, in order. */
  lemma {:induction false} ReceivedIsAssembled(l: Link, bytes: string)
    requires SoundLink(l)
    ensures |Assemble(l.buf, bytes).0| < LINE_MAX
    ensures ReceivedAll(l, bytes) == ObeyedAll(l, Assemble(l.buf, bytes).1).(buf := Assemble(l.buf, bytes).0)
    decreases |bytes|
  {
    hide ObeyedAll, Feed;
    BufferBounded(l.buf, bytes);
    if bytes == "" {
      assert ObeyedAll(l, []) == l by { NothingObeyed(l); }
    } else {
      var (next, lines) := Feed(l.buf, bytes[0]);
      BufferBounded(l.buf, [bytes[0]]);
      FeedBounded(l.buf, bytes[0]);
      var m := Received(l, bytes[0]);
      ReceivedIsAssembled(m, bytes[1..]);
      var (end, more) := Assemble(next, bytes[1..]);
      ObeyConcat(l, lines, more);
      ObeyKeepsBuffer(ObeyedAll(l, lines), next, more);
    }
  }

  lemma NothingObeyed(l: Link)
    requires SoundLink(l)
    ensures ObeyedAll(l, []) == l
  {
  }

  lemma OneObeyed(l: Link, line: string)
    requires SoundLink(l)
    ensures ObeyedAll(l, [line]) == Obeyed(l, line)
  {
    NothingObeyed(Obeyed(l, line));
    assert [line][1..] == [];
  }

  lemma FeedBounded(buf: string, c: char)
    requires |buf| < LINE_MAX
    ensures |Feed(buf, c).0| < LINE_MAX
  {
  }

  /** A stream of sendable lines has exactly the effect of those lines. */
  lemma LinesObeyed(l: Link, lines: seq<string>)
    requires SoundLink(l) && l.buf == ""
    requires forall i :: 0 <= i < |lines| ==> Sendable(lines[i])
    ensures ReceivedAll(l, Transmitted(lines)) == ObeyedAll(l, lines)
  {
    hide ReceivedAll, ObeyedAll, Assemble;
    ReceivedIsAssembled(l, Transmitted(lines));
    LinesRoundTrip(lines);
    ObeyKeepsBuffer(l, "", lines);
  }

  /** usb_cmd_service: at most one character per call. */
  class Console {
    const emu: Emulator
    const lineBuf: array<char>
    var lineLen: nat

    constructor (e: Emulator)
      ensures emu == e && lineLen == 0 && lineBuf.Length == LINE_MAX && fresh(lineBuf)
    {
      emu, lineLen := e, 0;
      lineBuf := new char[LINE_MAX](_ => NUL);
    }

    ghost predicate Valid()
      reads this, emu, emu.builder.crc, emu.builder.crc.table
    {
      emu.Valid() && lineLen < lineBuf.Length == LINE_MAX
    }

    ghost function Value(): Link
      requires emu.cells.Valid() && lineLen <= lineBuf.Length
      reads this, lineBuf, emu, emu.cells.cellMv, emu.cells.tempDc
    {
      Link(lineBuf[..lineLen], emu.cells.Value(), emu.fw)
    }

    method ServiceUsb(input: Option<char>)
      requires Valid()
      modifies this, lineBuf, emu`fw, emu.builder.crc, emu.builder.crc.table, emu.cells.cellMv, emu.cells.tempDc
      ensures Valid()
      ensures Value() == (if input.Some? then Received(old(Value()), input.value) else old(Value()))
    {
      hide LineVerdict, Firmware.Apply, Firmware.ApplyChain, CString, Tokens;
      if input.None? || input.value == '\r' {
        return;
      }
      var c := input.value;
      if c == '\n' {
        OneObeyed(Value(), lineBuf[..lineLen]);
        EndLine();
        lineLen := 0;
        return;
      }
      if lineLen < LINE_MAX - 1 {
        lineBuf[lineLen] := c;
        lineLen := lineLen + 1;
      } else {
        lineLen := 0;
      }
    }

    /** Terminate the line and dispatch it. */
    method EndLine()
      requires Valid()
      modifies lineBuf, emu`fw, emu.builder.crc, emu.builder.crc.table, emu.cells.cellMv, emu.cells.tempDc
      ensures Valid()
      ensures var l := Obeyed(old(Value()), old(lineBuf[..lineLen])); emu.cells.Value() == l.chain && emu.fw == l.fw
    {
      hide Tokens, Firmware.Apply, Firmware.ApplyChain, Interpret, CString;
      ghost var text := lineBuf[..lineLen];
      lineBuf[lineLen] := NUL;
      assert lineBuf[..] == text + lineBuf[lineLen..];
      CStringAfter(text, lineBuf[lineLen..]);
      var v := Dispatch();
      match v {
        case Accepted(cmd) => emu.Execute(cmd);
        case _ =>
      }
    }

    /** Cut the line into words in place, and look the command up. */
    method Dispatch() returns (v: Verdict)
      requires NUL in lineBuf[..]
      modifies lineBuf
      ensures v == Interpret(Tokens(CString(old(lineBuf[..])), MAX_ARGS))
    {
      hide Tokens, Interpret, CString;
      ghost var words := Tokens(CString(lineBuf[..]), MAX_ARGS);
      var ptrs := Tokenize(lineBuf);
      var argv: seq<string> := [];
      for i := 0 to |ptrs|
        invariant argv == words[..i]
      {
        argv := argv + [CString(lineBuf[ptrs[i]..])];
      }
      assert words[..|ptrs|] == words;
      v := Decide(argv);
    }
  }
}
