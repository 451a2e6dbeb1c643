/** What every configuration file leaves true, and which of its lines count. */
module ConfigInvariant {
  import opened Options
  import opened Bits
  import opened Text
  import opened ConfigKeys
  import opened ConfigStore
  import opened ConfigReader

  // ---------------------------------------------------------------- ranges

  ghost predicate SettingsInRange(s: Streaming) {
    && 0 < s.statsPort < 65536 && 0 <= s.statsInst < 4 && 0 < s.syncPktLen < 1500
    && 1 <= s.numConnections <= 4 && 0 <= s.netMode <= 1 && 0 <= s.enableEjfat <= 1
    && 0 < s.localPort < 65536
  }

  /** The payload word and the payload array say the same. */
  ghost predicate PayloadAgrees(c: Conf) {
    && |c.streaming.payloadEnArray| == 16
    && MaskBits(c.streaming.payloadEnArray, |c.streaming.payloadEnArray|)
    && c.payloadEn == Weight(c.streaming.payloadEnArray, |c.streaming.payloadEnArray|)
  }

  ghost predicate InRange(c: Conf) {
    SettingsInRange(c.streaming) && PayloadAgrees(c)
  }

  function Repeat<A>(x: A, n: nat): (s: seq<A>)
    ensures |s| == n
  {
    seq(n, _ => x)
  }

  /** `vtpInitGlobals`; the FT hodoscope threshold is the one modelled field it leaves alone. */
  function InitGlobals(c: Conf): (d: Conf)
    ensures Shaped(d)
  {
    Conf(0, 0,
         Streaming(19531, 0, 28, 1, 1, 1, 10001, Repeat(0, 16)),
         GtConf(1000, 100, Repeat(TrgBit(0, 0, 0, 0, 0, 0, 0, 0, 0, "0.000000", 1), 32)),
         c.fthodoEmin,
         HpsConf(0, HpsSolo(0, 0, 0, 0, 0, 0, 0, 0, 0, 0, "0.000000", 0, 0),
                 Repeat(SingleTrig(1, 8191, 1, -31, "0.000000", "0.000000", "0.000000", "0.000000",
                                   0, 0, 0, 0, 0, 0, 0, 0, 0, 0), 4),
                 Repeat(PairTrig(1, 8191, 1, 0, 0, 16383, 8191, "0.000000", 0, 0, 0, 0, 0, 0, 0, 0, 0, 0, 0), 4),
                 Repeat(MultTrig(0, 0, 0, 0, 0, 0, 0, 0), 2),
                 FeeTrig(1, 8191, 1, Repeat(FeeRegion(-31, -31, 0), 7), 0),
                 Repeat(1, 32)))
  }

  lemma {:induction false} ZeroWeight(n: nat, msk: seq<int>)
    requires n <= |msk| && forall i :: 0 <= i < n ==> msk[i] == 0
    ensures Weight(msk, n) == 0
  {
    if n > 0 {
      ZeroWeight(n - 1, msk);
    }
  }

  lemma InitInRange(c: Conf)
    ensures InRange(InitGlobals(c))
  {
    var msk := InitGlobals(c).streaming.payloadEnArray;
    ZeroWeight(|msk|, msk);
  }

  lemma PutFieldKeeps(c: Conf, k: Key, i: nat, a: seq<Arg>)
    requires Shaped(c) && Field(k, i)
    ensures PutField(c, k, i, a).streaming == c.streaming && PutField(c, k, i, a).payloadEn == c.payloadEn
  {
  }

  lemma StoreAtKeeps(c: Core, k: Key, i: int, a: seq<Arg>)
    requires ShapedCore(c) && Field(k, 0)
    ensures StoreAt(c, k, i, a).0.conf.streaming == c.conf.streaming
    ensures StoreAt(c, k, i, a).0.conf.payloadEn == c.conf.payloadEn
  {
    if 0 <= i < Count(k) {
      PutFieldKeeps(c.conf, k, i, a);
    }
  }

  lemma TriggerKeeps(c: Core, k: Key, a: seq<Arg>)
    requires ShapedCore(c) && !k.Setting? && !k.PayloadEn?
    ensures StoreKey(c, k, a).0.conf.streaming == c.conf.streaming
    ensures StoreKey(c, k, a).0.conf.payloadEn == c.conf.payloadEn
  {
    match k
    case Gt(g) =>
      if PerBit(g) && !g.GtTrg? {
        if 0 <= c.trgBit < 32 {
          PutFieldKeeps(c.conf, k, c.trgBit, a);
        }
      } else if !g.GtTrg? {
        PutFieldKeeps(c.conf, k, 0, a);
      }
    case Hps(h) =>
      if !h.EcalTop? && !h.EcalBottom? {
        StoreAtKeeps(c, k, if h.HpsPrescale? then N(a, 0) else 0, a);
      }
    case Pair(_) => StoreAtKeeps(c, k, N(a, 0), a);
    case Single(_) => StoreAtKeeps(c, k, N(a, 0), a);
    case Mult(_) => StoreAtKeeps(c, k, N(a, 0), a);
    case Fee(f) => StoreAtKeeps(c, k, if f.FeePrescale? then N(a, 0) else 0, a);
    case FthodoEmin => StoreAtKeeps(c, k, 0, a);
    case FiberEn =>
    case SlotEn =>
    case ComptonMask =>
    case GtTrgbit =>
    case GtTrgbit2 =>
    case Checked(_) =>
  }

  lemma SettingKeeps(s: Streaming, t: SettingKey, v: int)
    requires SettingsInRange(s)
    ensures SettingsInRange(StoreSetting(s, t, v)) && StoreSetting(s, t, v).payloadEnArray == s.payloadEnArray
  {
  }

  lemma PayloadKeeps(c: Core, a: seq<Arg>)
    requires ShapedCore(c) && InRange(c.conf)
    ensures InRange(StoreKey(c, PayloadEn, a).0.conf)
  {
    var msk := Overlay(c.msk, a);
    if MaskBits(msk, |msk|) {
      MaskIsWeight(msk, |msk|);
    }
  }

  /** One stored line, whatever its arguments and whether or not it returns an error. */
  lemma StoreKeepsRanges(c: Core, k: Key, a: seq<Arg>)
    requires ShapedCore(c) && InRange(c.conf)
    ensures InRange(StoreKey(c, k, a).0.conf)
  {
    if k.PayloadEn? {
      PayloadKeeps(c, a);
    } else if k.Setting? {
      SettingKeeps(c.conf.streaming, k.t, N(a, 0));
    } else {
      TriggerKeeps(c, k, a);
    }
  }

  lemma {:induction false} LinesKeepRanges(r: Reader, host: string, lines: seq<string>)
    requires ShapedCore(r.core) && InRange(r.core.conf)
    ensures InRange(ReadLines(r, host, lines).0.core.conf)
    decreases |lines|
  {
    if lines != [] {
      var g := GateAfter(r.gate, host, lines[0]);
      if Governed(g) && KeyOf(g.keyword).Some? {
        var k := KeyOf(g.keyword).value;
        StoreKeepsRanges(r.core, k, ScanArgs(Arguments(lines[0]), Kinds(k)));
      }
      var (next, code) := ReadLine(r, host, lines[0]);
      if code == 0 {
        LinesKeepRanges(next, host, lines[1..]);
      }
    }
  }

  /** One call of the reader: a file that may not open, and whatever its locals hold at first. */
  datatype Call = Call(host: string, content: Option<string>, trgBit: int, msk: seq<int>, gate: Gate)

  /** The configuration after the calls, error returns and calls that never return included. */
  function AfterCalls(c: Conf, calls: seq<Call>): (d: Conf)
    requires Shaped(c) && forall i :: 0 <= i < |calls| ==> |calls[i].msk| == 16
    ensures Shaped(d)
    decreases |calls|
  {
    if calls == [] then c
    else
      var before := AfterCalls(c, calls[..|calls| - 1]);
      var call := calls[|calls| - 1];
      match call.content
      case None => before
      case Some(text) =>
        var start := Reader(Core(before, call.trgBit, call.msk), call.gate.(active := false));
        ReadText(start, call.host, text).reader.core.conf
  }

  /** After initialisation and any number of files with any content, the streaming settings are in
      range and the payload word is the weighted sum of an array of zeros and ones. */
  lemma {:induction false} AnyFilesKeepRanges(c: Conf, calls: seq<Call>)
    requires forall i :: 0 <= i < |calls| ==> |calls[i].msk| == 16
    ensures InRange(AfterCalls(InitGlobals(c), calls))
    decreases |calls|
  {
    if calls == [] {
      InitInRange(c);
    } else {
      AnyFilesKeepRanges(c, calls[..|calls| - 1]);
      var before := AfterCalls(InitGlobals(c), calls[..|calls| - 1]);
      var call := calls[|calls| - 1];
      if call.content.Some? {
        var r := Reader(Core(before, call.trgBit, call.msk), call.gate.(active := false));
        LinesKeepRanges(r, call.host, Split(call.content.value).lines);
      }
    }
  }

  // ---------------------------------------------------------------- gating

  /** The lines that are to be stored, each with the keyword in force. */
  function GovernedLines(g: Gate, host: string, lines: seq<string>): seq<(string, string)>
    decreases |lines|
  {
    if lines == [] then []
    else
      var after := GateAfter(g, host, lines[0]);
      (if Governed(after) then [(after.keyword, lines[0])] else []) + GovernedLines(after, host, lines[1..])
  }

  /** Reference: store lines one after another, with no crates at all. */
  function StoreAll(c: Core, stored: seq<(string, string)>): (Core, int)
    requires ShapedCore(c)
    decreases |stored|
  {
    if stored == [] then (c, 0)
    else
      var (next, code) := StoreLine(c, stored[0].0, stored[0].1);
      if code != 0 then (next, code) else StoreAll(next, stored[1..])
  }

  lemma OneStored(c: Core, keyword: string, text: string, rest: seq<(string, string)>)
    requires ShapedCore(c)
    ensures var (next, code) := StoreLine(c, keyword, text);
            StoreAll(c, [(keyword, text)] + rest) == if code != 0 then (next, code) else StoreAll(next, rest)
  {
    assert ([(keyword, text)] + rest)[1..] == rest;
  }

  lemma OneRead(r: Reader, host: string, lines: seq<string>)
    requires ShapedCore(r.core) && lines != []
    ensures var g := GateAfter(r.gate, host, lines[0]);
            var (core, code) := if Governed(g) then StoreLine(r.core, g.keyword, lines[0]) else (r.core, 0);
            ReadLines(r, host, lines)
            == if code != 0 then (Reader(core, g), code) else ReadLines(Reader(core, g), host, lines[1..])
  {
  }

  /** Reading a file is storing just the lines under a crate line that names this host or `all`:
      the same configuration, the same return code. */
  lemma {:induction false} GatingFolds(r: Reader, host: string, lines: seq<string>)
    requires ShapedCore(r.core)
    ensures var (after, code) := ReadLines(r, host, lines);
            (after.core, code) == StoreAll(r.core, GovernedLines(r.gate, host, lines))
    decreases |lines|
  {
    if lines != [] {
      var g := GateAfter(r.gate, host, lines[0]);
      var rest := GovernedLines(g, host, lines[1..]);
      OneRead(r, host, lines);
      if Governed(g) {
        OneStored(r.core, g.keyword, lines[0], rest);
        GatingFolds(Reader(StoreLine(r.core, g.keyword, lines[0]).0, g), host, lines[1..]);
      } else {
        assert GovernedLines(r.gate, host, lines) == rest;
        GatingFolds(Reader(r.core, g), host, lines[1..]);
      }
    }
  }

  predicate NamesHost(word: string, host: string) {
    word == host || word == "all"
  }

  predicate NamesNot(w: Words, host: string) {
    w.rocName.None? || !NamesHost(w.rocName.value, host)
  }

  // ---------------------------------------------------------------- gating, by position

  /** The keyword in force after `n` lines: that of the last line that has one. */
  function KeywordAt(g: Gate, ws: seq<Words>, n: nat): string
    requires n <= |ws|
  {
    if n == 0 then g.keyword else Found(ws[n - 1].keyword, KeywordAt(g, ws, n - 1))
  }

  /** The crate name in force: that of the last line that has a second word. */
  function RocNameAt(g: Gate, ws: seq<Words>, n: nat): string
    requires n <= |ws|
  {
    if n == 0 then g.rocName else Found(ws[n - 1].rocName, RocNameAt(g, ws, n - 1))
  }

  /** Line `i` is a crate line. */
  predicate CrateAt(g: Gate, ws: seq<Words>, i: nat)
    requires i < |ws|
  {
    KeywordAt(g, ws, i + 1) == CRATE
  }

  /** The last of the first `n` lines that is a crate line, or -1. */
  function LastCrate(g: Gate, ws: seq<Words>, n: nat): (j: int)
    requires n <= |ws|
    ensures -1 <= j < n
  {
    if n == 0 then -1 else if CrateAt(g, ws, n - 1) then n - 1 else LastCrate(g, ws, n - 1)
  }

  lemma {:induction false} LastCrateIs(g: Gate, ws: seq<Words>, n: nat)
    requires n <= |ws|
    ensures var j := LastCrate(g, ws, n);
            (j >= 0 ==> CrateAt(g, ws, j)) && forall i :: j < i < n ==> !CrateAt(g, ws, i)
  {
    if n > 0 && !CrateAt(g, ws, n - 1) {
      LastCrateIs(g, ws, n - 1);
    }
  }

  /** The last crate line among the first `n` names this host or `all`; without one, the crate is as
      it was at the start. */
  predicate Activated(g: Gate, host: string, ws: seq<Words>, n: nat)
    requires n <= |ws|
  {
    var j := LastCrate(g, ws, n);
    if j == -1 then g.active else NamesHost(RocNameAt(g, ws, j + 1), host)
  }

  /** Line `i` counts: it is no crate line, and the last crate line before it activated this host. */
  predicate Counts(g: Gate, host: string, ws: seq<Words>, i: nat)
    requires i < |ws|
  {
    !CrateAt(g, ws, i) && Activated(g, host, ws, i)
  }

  function AllWords(lines: seq<string>): (ws: seq<Words>)
    ensures |ws| == |lines|
  {
    seq(|lines|, i requires 0 <= i < |lines| => WordsIn(lines[i]))
  }

  /** The lines that count among the first `n`, each with the keyword in force. */
  function CountingLines(g: Gate, host: string, lines: seq<string>, ws: seq<Words>, n: nat): seq<(string, string)>
    requires n <= |lines| == |ws|
  {
    if n == 0 then []
    else
      CountingLines(g, host, lines, ws, n - 1)
      + if Counts(g, host, ws, n - 1) then [(KeywordAt(g, ws, n), lines[n - 1])] else []
  }

  /** The gate after the first `n` lines. */
  function GateAt(g: Gate, host: string, ws: seq<Words>, n: nat): Gate
    requires n <= |ws|
  {
    if n == 0 then g else GateStep(GateAt(g, host, ws, n - 1), host, ws[n - 1])
  }

  lemma {:induction false} GateIs(g: Gate, host: string, ws: seq<Words>, n: nat)
    requires n <= |ws|
    ensures GateAt(g, host, ws, n) == Gate(Activated(g, host, ws, n), KeywordAt(g, ws, n), RocNameAt(g, ws, n))
  {
    if n > 0 {
      GateIs(g, host, ws, n - 1);
    }
  }

  lemma CountsGoverned(g: Gate, host: string, ws: seq<Words>, i: nat)
    requires i < |ws|
    ensures Governed(GateAt(g, host, ws, i + 1)) <==> Counts(g, host, ws, i)
  {
    GateIs(g, host, ws, i + 1);
  }

  lemma GovernedFirst(g: Gate, host: string, lines: seq<string>, i: nat)
    requires i < |lines|
    ensures var after := GateAfter(g, host, lines[i]);
            GovernedLines(g, host, lines[i..])
            == (if Governed(after) then [(after.keyword, lines[i])] else [])
               + GovernedLines(after, host, lines[i + 1..])
  {
    assert lines[i..][0] == lines[i] && lines[i..][1..] == lines[i + 1..];
  }

  /** The lines the reader stores from line `i` on, with the gate as it is there. */
  lemma {:induction false} GovernedByPosition(g: Gate, host: string, lines: seq<string>, ws: seq<Words>, i: nat)
    requires i <= |lines| && ws == AllWords(lines)
    ensures CountingLines(g, host, lines, ws, i) + GovernedLines(GateAt(g, host, ws, i), host, lines[i..])
         == CountingLines(g, host, lines, ws, |lines|)
    decreases |lines| - i
  {
    if i < |lines| {
      GovernedByPosition(g, host, lines, ws, i + 1);
      GovernedFirst(GateAt(g, host, ws, i), host, lines, i);
      GateIs(g, host, ws, i + 1);
      CountsGoverned(g, host, ws, i);
    }
  }

  lemma GovernedIsCounting(g: Gate, host: string, lines: seq<string>)
    ensures GovernedLines(g, host, lines) == CountingLines(g, host, lines, AllWords(lines), |lines|)
  {
    GovernedByPosition(g, host, lines, AllWords(lines), 0);
    assert lines[0..] == lines;
  }

  /** Reading a file stores exactly the lines whose last crate line names this host or `all`, in
      order, up to the first error. */
  lemma StoredByPosition(r: Reader, host: string, lines: seq<string>)
    requires ShapedCore(r.core)
    ensures var (after, code) := ReadLines(r, host, lines);
            (after.core, code) == StoreAll(r.core, CountingLines(r.gate, host, lines, AllWords(lines), |lines|))
  {
    GatingFolds(r, host, lines);
    GovernedIsCounting(r.gate, host, lines);
  }

  lemma {:induction false} NeverActive(g: Gate, host: string, lines: seq<string>)
    requires !g.active && !NamesHost(g.rocName, host)
    requires forall i :: 0 <= i < |lines| ==>
               NamesNot(WordsIn(lines[i]), host)
    ensures GovernedLines(g, host, lines) == []
    decreases |lines|
  {
    if lines != [] {
      NeverActive(GateAfter(g, host, lines[0]), host, lines[1..]);
    }
  }

  /** A file that nowhere names this host or `all` changes nothing and is not an error. */
  lemma OtherCratesIgnored(r: Reader, host: string, s: string)
    requires ShapedCore(r.core) && !r.gate.active && !NamesHost(r.gate.rocName, host)
    requires forall i :: 0 <= i < |Split(s).lines| ==>
               NamesNot(WordsIn(Split(s).lines[i]), host)
    ensures ReadText(r, host, s).reader.core == r.core
    ensures ReadText(r, host, s).Returned? ==> ReadText(r, host, s).code == 0
  {
    NeverActive(r.gate, host, Split(s).lines);
    GatingFolds(r, host, Split(s).lines);
  }

  /** When a call never returns: no line is in error, and the file ends inside a comment. */
  lemma HangsIff(r: Reader, host: string, s: string)
    requires ShapedCore(r.core)
    ensures ReadText(r, host, s).Hung? <==>
              StoreAll(r.core, GovernedLines(r.gate, host, Split(s).lines)).1 == 0 && EndsInComment(s)
  {
    GatingFolds(r, host, Split(s).lines);
    CommentTail(s);
  }

  /** The last line of the file is a comment without its newline. */
  function EndsInComment(s: string): bool
    decreases |s|
  {
    if s == "" then false
    else if SkipsLine(s[0]) then !Terminated(s[1..]) || EndsInComment(s[1 + LineLength(s[1..])..])
    else if s[0] == '\n' then EndsInComment(s[1..])
    else EndsInComment(s[Chunk(s)..])
  }

  lemma {:induction false} CommentTail(s: string)
    ensures EndsInComment(s) <==> !Split(s).ends
    decreases |s|
  {
    if s != "" {
      if SkipsLine(s[0]) {
        if Terminated(s[1..]) {
          CommentTail(s[1 + LineLength(s[1..])..]);
        }
      } else if s[0] == '\n' {
        CommentTail(s[1..]);
      } else {
        CommentTail(s[Chunk(s)..]);
      }
    }
  }
}
