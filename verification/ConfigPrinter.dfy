/**
 The printer in `vtpUploadAll` for the global-trigger and HPS sections: lines appended to a bounded
 buffer, and what the reader makes of them.
 */
module ConfigPrinter {
  import opened Options
  import opened Text
  import opened ConfigKeys
  import opened ConfigStore
  import opened ConfigReader

  /** A printed line: keyword `k` for instance `i`, or the one that says top or bottom. */
  datatype Line = Value(k: Key, i: nat) | TopOrBottom

  predicate Good(x: Line) {
    x.Value? ==> Field(x.k, x.i)
  }

  ghost predicate AllGood(lines: seq<Line>) {
    forall j :: 0 <= j < |lines| ==> Good(lines[j])
  }

  // ---------------------------------------------------------------- the listings

  function TrgLines(i: nat): seq<Line> {
    [Value(Gt(GtTrg), i), Value(Gt(GtStriggerMask), i), Value(Gt(GtCtriggerMask), i), Value(Gt(GtSectorMask), i),
     Value(Gt(GtSectorMultMin), i), Value(Gt(GtSectorWidth), i), Value(Gt(GtPulserFreq), i),
     Value(Gt(GtDelay), i), Value(Gt(GtPrescale), i)]
  }

  function PairLines(i: nat): seq<Line> {
    [Value(Pair(PairEmin), i), Value(Pair(PairEmax), i), Value(Pair(PairNmin), i),
     Value(Pair(PairTimeCoincidence), i), Value(Pair(PairSummaxMin), i), Value(Pair(PairDiffmax), i),
     Value(Pair(PairEnergydist), i), Value(Pair(PairCoplanarity), i), Value(Pair(PairEn), i),
     Value(Pair(PairHodo), i)]
  }

  function SingleLines(i: nat): seq<Line> {
    [Value(Single(SingleEmin), i), Value(Single(SingleEmax), i), Value(Single(SingleNmin), i),
     Value(Single(SingleXmin), i), Value(Single(SinglePde), i), Value(Single(SingleHodo), i),
     Value(Single(SingleEn), i)]
  }

  function MultLines(i: nat): seq<Line> {
    [Value(Mult(MultEmin), i), Value(Mult(MultEmax), i), Value(Mult(MultNmin), i), Value(Mult(MultMin), i),
     Value(Mult(MultDt), i), Value(Mult(MultEn), i)]
  }

  function FeeLine(i: nat): seq<Line> { [Value(Fee(FeePrescale), i)] }
  function PrescaleLine(i: nat): seq<Line> { [Value(Hps(HpsPrescale), i)] }

  /** A `for` loop over instances. */
  function Each(block: nat -> seq<Line>, n: nat): seq<Line> {
    Flat(seq(n, i requires 0 <= i < n => block(i)))
  }

  function Flat(blocks: seq<seq<Line>>): seq<Line>
    decreases |blocks|
  {
    if blocks == [] then [] else Flat(blocks[..|blocks| - 1]) + blocks[|blocks| - 1]
  }

  /** One more pass of the loop. */
  lemma EachSnoc(block: nat -> seq<Line>, n: nat)
    ensures Each(block, 0) == []
    ensures n > 0 ==> Each(block, n) == Each(block, n - 1) + block(n - 1)
  {
    if n > 0 {
      var blocks := seq(n, i requires 0 <= i < n => block(i));
      assert blocks[..n - 1] == seq(n - 1, i requires 0 <= i < n - 1 => block(i));
    }
  }

  function GtLines(): seq<Line> {
    [Value(Gt(GtLatency), 0), Value(Gt(GtWidth), 0)] + Each(TrgLines, 32)
  }

  function CalibLines(): seq<Line> {
    [Value(FthodoEmin, 0), TopOrBottom, Value(Hps(EcalHitDt), 0), Value(Hps(EcalSeedThr), 0),
     Value(Hps(FadchitThr), 0), Value(Hps(HodoThr), 0), Value(Hps(HodoDt), 0), Value(Hps(CalibTopEn), 0),
     Value(Hps(CalibBotEn), 0), Value(Hps(CosmicDt), 0), Value(Hps(CosmicTopEn), 0),
     Value(Hps(CosmicBotEn), 0), Value(Hps(PulserEn), 0), Value(Hps(ConfigKeys.HpsKey.PulserFreq), 0)]
  }

  function FeeLines(): seq<Line> {
    [Value(Fee(FeeEn), 0), Value(Fee(FeeEmin), 0), Value(Fee(FeeEmax), 0), Value(Fee(FeeNmin), 0)]
    + Each(FeeLine, 7)
  }

  /** The parts of the HPS listing; the pair lines are printed twice. */
  function HpsPart(j: nat): seq<Line> {
    match j
    case 0 => Each(PairLines, 4)
    case 1 => CalibLines()
    case 2 => Each(SingleLines, 4)
    case 3 => Each(PairLines, 4)
    case 4 => Each(MultLines, 2)
    case 5 => FeeLines()
    case 6 => [Value(Hps(HpsLatency), 0)]
    case _ => Each(PrescaleLine, 32)
  }

  function HpsLines(): seq<Line> {
    Each(HpsPart, 8)
  }

  // ---------------------------------------------------------------- one printed line

  /** The floats are what printf prints for a finite float. */
  ghost predicate FloatsPrintable(c: Conf)
    requires Shaped(c)
  {
    && (forall i :: 0 <= i < 32 ==> IsFixed(c.gt.trg[i].pulserFreq))
    && (forall i :: 0 <= i < 4 ==> IsFixed(c.hps.pairs[i].edFactor))
    && (forall i :: 0 <= i < 4 ==> PdeFixed(c.hps.singles[i]))
    && IsFixed(c.hps.solo.pulserFreq)
  }

  ghost predicate PdeFixed(s: SingleTrig) {
    IsFixed(s.pde0) && IsFixed(s.pde1) && IsFixed(s.pde2) && IsFixed(s.pde3)
  }

  lemma Arity(c: Conf, k: Key, i: nat)
    requires Shaped(c) && Field(k, i)
    ensures |GetField(c, k, i)| == |Kinds(k)|
  {
  }

  lemma TrgFits(t: TrgBit, g: GtKey, i: nat)
    requires PerBit(g) && i < 32 && IsFixed(t.pulserFreq)
    ensures AllFit(Kinds(Gt(g)), GetTrg(t, g, i))
  {
  }

  lemma PairFits(p: PairTrig, k: PairKey, i: nat)
    requires i < 4 && IsFixed(p.edFactor)
    ensures AllFit(Kinds(Pair(k)), GetPair(p, k, i))
  {
  }

  lemma SingleFits(s: SingleTrig, k: SingleKey, i: nat)
    requires i < 4 && PdeFixed(s)
    ensures AllFit(Kinds(Single(k)), GetSingle(s, k, i))
  {
  }

  lemma SoloFits(s: HpsSolo, h: HpsKey)
    requires IsSolo(h) && IsFixed(s.pulserFreq)
    ensures AllFit(Kinds(Hps(h)), GetSolo(s, h))
  {
  }

  lemma FieldFits(c: Conf, k: Key, i: nat)
    requires Shaped(c) && Field(k, i) && FloatsPrintable(c)
    ensures AllFit(Kinds(k), GetField(c, k, i))
  {
    match k
    case Gt(g) => if PerBit(g) { TrgFits(c.gt.trg[i], g, i); }
    case Pair(p) => PairFits(c.hps.pairs[i], p, i);
    case Single(s) => SingleFits(c.hps.singles[i], s, i);
    case Mult(m) =>
    case Fee(f) =>
    case Hps(h) => if IsSolo(h) { SoloFits(c.hps.solo, h); }
    case FthodoEmin =>
  }

  function Values(c: Conf, k: Key, i: nat): string
    requires Shaped(c) && Field(k, i)
  {
    Arity(c, k, i);
    PrintArgs(Kinds(k), GetField(c, k, i))
  }

  const ECAL_BOT: string := "VTP_HPS_ECAL_BOT"

  function LineText(c: Conf, x: Line): string
    requires Shaped(c) && Good(x)
  {
    match x
    case Value(k, i) => Name(k) + (Values(c, k, i) + "\n")
    case TopOrBottom => (if c.hps.topNBottom != 0 then Name(Hps(EcalTop)) else ECAL_BOT) + "\n"
  }

  function Texts(c: Conf, lines: seq<Line>): (s: seq<string>)
    requires Shaped(c) && AllGood(lines)
    ensures |s| == |lines|
  {
    seq(|lines|, j requires 0 <= j < |lines| => LineText(c, lines[j]))
  }

  function Concat(lines: seq<string>): string {
    if lines == [] then "" else lines[0] + Concat(lines[1..])
  }

  // ---------------------------------------------------------------- the bounded buffer

  lemma {:induction false} ConcatSnoc(lines: seq<string>, n: nat)
    requires n < |lines|
    ensures Concat(lines[..n + 1]) == Concat(lines[..n]) + lines[n]
    decreases n
  {
    if n == 0 {
      assert lines[..1] == [lines[0]] && lines[..0] == [];
      assert Concat([lines[0]]) == lines[0] + Concat([]);
    } else {
      ConcatSnoc(lines[1..], n - 1);
      assert lines[..n + 1][1..] == lines[1..][..n] && lines[..n][1..] == lines[1..][..n - 1];
    }
  }

  /** `n` lines are printed: those and no others fit, with what was there before, strictly below `length`. */
  ghost predicate Prefix(before: string, lines: seq<string>, length: int, n: nat)
    requires n <= |lines|
  {
    forall m: nat :: m <= |lines| ==>
      (m <= n <==> m == 0 || |before| + |Concat(lines[..m])| < length)
  }

  lemma {:induction false} LongerPrefix(lines: seq<string>, m: nat, n: nat)
    requires m <= n <= |lines|
    ensures |Concat(lines[..m])| <= |Concat(lines[..n])|
    decreases n
  {
    if m < n {
      LongerPrefix(lines, m, n - 1);
      ConcatSnoc(lines, n - 1);
    }
  }

  lemma PrefixWhole(before: string, lines: seq<string>, length: int, n: nat)
    requires n <= |lines| && (n == 0 || |before| + |Concat(lines[..n])| < length)
    requires n < |lines| ==> |before| + |Concat(lines[..n])| + |lines[n]| >= length
    ensures Prefix(before, lines, length, n)
  {
    forall m: nat | m <= |lines|
      ensures m <= n <==> m == 0 || |before| + |Concat(lines[..m])| < length
    {
      if m <= n {
        LongerPrefix(lines, m, n);
      } else {
        ConcatSnoc(lines, n);
        LongerPrefix(lines, n + 1, m);
      }
    }
  }

  class UploadBuffer {
    var str: string

    /** `ADD_TO_STRING`; false where the macro returns from the printer. */
    method AddToString(sss: string, length: int) returns (ok: bool)
      modifies this
      ensures ok <==> |old(str)| + |sss| < length
      ensures str == if ok then old(str) + sss else old(str)
    {
      ok := |str| + |sss| < length;
      if ok {
        str := str + sss;
      }
    }

    /** Print lines until one does not fit; the result is the length of the string. */
    method PrintLines(texts: seq<string>, length: int) returns (len1: nat, ghost n: nat)
      modifies this
      ensures n <= |texts| && str == old(str) + Concat(texts[..n]) && len1 == |str|
      ensures Prefix(old(str), texts, length, n)
    {
      var j := 0;
      var ok := true;
      while ok && j < |texts|
        invariant j <= |texts|
        invariant str == old(str) + Concat(texts[..j])
        invariant j == 0 || |str| < length
        invariant !ok ==> j < |texts| && |str| + |texts[j]| >= length
        decreases |texts| - j, ok
      {
        ConcatSnoc(texts, j);
        ok := AddToString(texts[j], length);
        if ok {
          j := j + 1;
        }
      }
      PrefixWhole(old(str), texts, length, j);
      len1, n := |str|, j;
    }

    /** The global-trigger or HPS part of `vtpUploadAll`. */
    method PrintSection(c: Conf, lines: seq<Line>, length: int) returns (len1: nat, ghost n: nat)
      requires Shaped(c) && AllGood(lines)
      modifies this
      ensures n <= |lines| && str == old(str) + Concat(Texts(c, lines)[..n]) && len1 == |str|
      ensures Prefix(old(str), Texts(c, lines), length, n)
    {
      len1, n := PrintLines(Texts(c, lines), length);
    }
  }

  // ---------------------------------------------------------------- reading one line back

  /** A line the reader takes whole. */
  ghost predicate WholeLine(s: string) {
    s != "" && |s| < STRLEN && s[0] == 'V' && s[|s| - 1] == '\n' && OneLine(s[..|s| - 1])
  }

  lemma SplitFirst(line: string, rest: string)
    requires WholeLine(line)
    ensures Split(line + rest) == Split(rest).(lines := [line] + Split(rest).lines)
  {
    var body := line[..|line| - 1];
    assert line == body + "\n";
    LineLengthIs(body, rest);
    var s := line + rest;
    assert s == body + "\n" + rest;
    assert Chunk(s) == |line| && s[0] == 'V';
    assert s[..|line|] == line && s[|line|..] == rest;
  }

  lemma {:induction false} SplitConcat(lines: seq<string>, rest: string)
    requires forall j :: 0 <= j < |lines| ==> WholeLine(lines[j])
    ensures Split(Concat(lines) + rest) == Split(rest).(lines := lines + Split(rest).lines)
    decreases |lines|
  {
    if lines == [] {
      assert Concat(lines) + rest == rest;
      assert lines + Split(rest).lines == Split(rest).lines;
    } else {
      var more := Concat(lines[1..]) + rest;
      assert Concat(lines) + rest == lines[0] + more;
      SplitFirst(lines[0], more);
      SplitConcat(lines[1..], rest);
      assert [lines[0]] + (lines[1..] + Split(rest).lines) == lines + Split(rest).lines;
    }
  }

  function Width(kinds: seq<Kind>): nat {
    if kinds == [] then 0 else (if kinds[0] == F then 49 else 12) + Width(kinds[1..])
  }

  ghost predicate ShortLines(print1: Printer) {
    forall kind, arg :: Fits(kind, arg) ==>
      OneLine(print1(kind, arg)) && |print1(kind, arg)| <= (if kind == F then 48 else 11)
  }

  lemma {:induction false} SeqShort(print1: Printer, kinds: seq<Kind>, args: seq<Arg>)
    requires AllFit(kinds, args) && ShortLines(print1)
    ensures OneLine(PrintSeq(print1, kinds, args)) && |PrintSeq(print1, kinds, args)| <= Width(kinds)
    decreases |args|
  {
    if args != [] {
      assert Fits(kinds[0], args[0]);
      SeqShort(print1, kinds[1..], args[1..]);
    }
  }

  lemma PrintedShort(kinds: seq<Kind>, args: seq<Arg>)
    requires AllFit(kinds, args)
    ensures OneLine(PrintArgs(kinds, args)) && |PrintArgs(kinds, args)| <= Width(kinds)
  {
    forall kind, arg | Fits(kind, arg)
      ensures OneLine(PrintOne(kind, arg)) && |PrintOne(kind, arg)| <= (if kind == F then 48 else 11)
    {
      PrintedOneLine(kind, arg);
    }
    SeqShort(PrintOne, kinds, args);
  }

  lemma {:induction false} WidthAtMost(kinds: seq<Kind>)
    ensures Width(kinds) <= 49 * |kinds|
    decreases |kinds|
  {
    if kinds != [] {
      WidthAtMost(kinds[1..]);
    }
  }

  lemma WidthPde()
    ensures Width([D, F, F, F, F, D]) == 220
  {
    assert [D, F, F, F, F, D][1..] == [F, F, F, F, D] && [F, F, F, F, D][1..] == [F, F, F, D];
    assert [F, F, F, D][1..] == [F, F, D] && [F, F, D][1..] == [F, D] && [F, D][1..] == [D] && [D][1..] == [];
  }

  lemma WidthHodo()
    ensures Width([D, D, D, D, D]) == 60
  {
    assert [D, D, D, D, D][1..] == [D, D, D, D] && [D, D, D, D][1..] == [D, D, D];
    assert [D, D, D][1..] == [D, D] && [D, D][1..] == [D] && [D][1..] == [];
  }

  lemma FewKinds(k: Key)
    requires Field(k, 0) && !k.Single? && k != Pair(PairHodo)
    ensures |Kinds(k)| <= 4
  {
  }

  lemma SingleWidth(s: SingleKey)
    ensures |Name(Single(s))| + Width(Kinds(Single(s))) <= 248
  {
    SingleBare(s);
    WidthPde();
    WidthHodo();
    if s != SinglePde && s != SingleHodo {
      WidthAtMost(Kinds(Single(s)));
    }
  }

  lemma ArgumentWidth(k: Key)
    requires Field(k, 0)
    ensures |Name(k)| + Width(Kinds(k)) <= 248
  {
    NameBare(k);
    if k.Single? {
      SingleWidth(k.s);
    } else if k == Pair(PairHodo) {
      WidthHodo();
    } else {
      FewKinds(k);
      WidthAtMost(Kinds(k));
    }
  }

  /** A printed line is whole: short enough for the reader's buffer, one newline, at its end. */
  lemma LineWhole(c: Conf, x: Line)
    requires Shaped(c) && Good(x) && FloatsPrintable(c)
    ensures WholeLine(LineText(c, x))
  {
    match x
    case Value(k, i) =>
      Arity(c, k, i);
      FieldFits(c, k, i);
      PrintedShort(Kinds(k), GetField(c, k, i));
      ArgumentWidth(k);
      NameBare(k);
      BareIsWord(Name(k));
      Joined(Name(k), Values(c, k, i));
    case TopOrBottom => TopWhole();
  }

  lemma Joined(word: string, tail: string)
    requires OneLine(word) && OneLine(tail) && |word| + |tail| <= 248 && word != "" && word[0] == 'V'
    ensures WholeLine(word + (tail + "\n"))
  {
    var s := word + (tail + "\n");
    assert s[..|s| - 1] == word + tail;
  }

  lemma TopWhole()
    ensures WholeLine(Name(Hps(EcalTop)) + "\n") && WholeLine(ECAL_BOT + "\n")
  {
    NameBare(Hps(EcalTop));
    BareIsWord(Name(Hps(EcalTop)));
    Joined(Name(Hps(EcalTop)), "");
    Joined(ECAL_BOT, "");
    assert Name(Hps(EcalTop)) + ("" + "\n") == Name(Hps(EcalTop)) + "\n";
    assert ECAL_BOT + ("" + "\n") == ECAL_BOT + "\n";
  }

  /** An active reader takes a line's first word as the keyword and the rest as arguments. */
  lemma WordLine(r: Reader, host: string, word: string, tail: string)
    requires ShapedCore(r.core) && r.gate.active && word != CRATE
    requires word != "" && AllIn(word, NonSpace) && Ends(tail)
    ensures var (after, code) := ReadLine(r, host, word + tail);
            after.gate.active && (after.core, code) == StoreLine(r.core, word, word + tail)
    ensures Arguments(word + tail) == tail
  {
    ScanFirstWord(word, tail);
  }

  lemma ValueLine(r: Reader, host: string, from: Conf, k: Key, i: nat)
    requires ShapedCore(r.core) && r.gate.active && Shaped(from) && FloatsPrintable(from) && Field(k, i)
    ensures var (after, code) := ReadLine(r, host, LineText(from, Value(k, i)));
            after.gate.active && (after.core, code) == StoreKey(r.core, k, GetField(from, k, i))
  {
    var args := GetField(from, k, i);
    Arity(from, k, i);
    FieldFits(from, k, i);
    ScanPrinted(Kinds(k), args, "\n");
    NameBare(k);
    BareIsWord(Name(k));
    KeyOfName(k);
    WordLine(r, host, Name(k), Values(from, k, i) + "\n");
  }

  lemma TopLine(r: Reader, host: string)
    requires ShapedCore(r.core) && r.gate.active
    ensures var (after, code) := ReadLine(r, host, Name(Hps(EcalTop)) + "\n");
            after.gate.active && (after.core, code) == StoreKey(r.core, Hps(EcalTop), [])
  {
    var k := Hps(EcalTop);
    NameBare(k);
    BareIsWord(Name(k));
    KeyOfName(k);
    WordLine(r, host, Name(k), "\n");
    assert ScanArgs("\n", Kinds(k)) == [];
  }

  lemma {:induction false} FindNone(w: string, keys: seq<Key>)
    requires forall j :: 0 <= j < |keys| ==> Name(keys[j]) != w
    ensures Find(w, keys) == None
    decreases |keys|
  {
    if keys != [] {
      FindNone(w, keys[1..]);
    }
  }

  lemma CheckedLetter(c: CheckedKey)
    ensures CheckedSuffix(c) != "" && CheckedSuffix(c)[0] != 'H'
  {
  }

  lemma OtherLetters(k: Key)
    requires !ConfigKeys.Printed(k)
    ensures |Name(k)| > 4 && Name(k)[4] != 'H'
  {
    match k
    case Setting(t) => assert SettingSuffix(t)[0] != 'H';
    case Checked(c) => CheckedLetter(c);
    case FiberEn =>
    case SlotEn =>
    case ComptonMask =>
    case GtTrgbit =>
    case GtTrgbit2 =>
  }

  lemma OthersNotPrinted()
    ensures forall j :: 0 <= j < |OTHER_KEYS| ==> !ConfigKeys.Printed(OTHER_KEYS[j])
  {
  }

  lemma NotBottom(k: Key)
    requires ConfigKeys.Printed(k)
    ensures Name(k) != ECAL_BOT
  {
    if Name(k) == ECAL_BOT {
      GroupLetters(k);
      assert k.Hps?;
      assert "VTP_HPS_" + "ECAL_BOT" == ECAL_BOT;
      SuffixTail("VTP_HPS_", HpsSuffix(k.h), "ECAL_BOT");
      NoBottom(k.h);
    }
  }

  lemma NoBottom(h: HpsKey)
    ensures HpsSuffix(h) != "ECAL_BOT"
  {
  }

  /** The keyword printed for the bottom half is one the reader does not know. */
  lemma BottomUnknown()
    ensures KeyOf(ECAL_BOT) == None
  {
    GroupsPrinted();
    var keys := PRINTED_KEYS + OTHER_KEYS;
    forall j | 0 <= j < |keys| ensures Name(keys[j]) != ECAL_BOT {
      if j < |PRINTED_KEYS| {
        NotBottom(PRINTED_KEYS[j]);
      } else {
        OthersNotPrinted();
        OtherLetters(OTHER_KEYS[j - |PRINTED_KEYS|]);
      }
    }
    FindNone(ECAL_BOT, keys);
  }

  lemma BottomLine(r: Reader, host: string)
    requires ShapedCore(r.core) && r.gate.active
    ensures var (after, code) := ReadLine(r, host, ECAL_BOT + "\n");
            after.gate.active && (after.core, code) == (r.core, 0)
  {
    assert Bare(ECAL_BOT);
    BareIsWord(ECAL_BOT);
    BottomUnknown();
    WordLine(r, host, ECAL_BOT, "\n");
  }

  // ---------------------------------------------------------------- reading a listing back

  function StoredLine(base: Conf, from: Conf, x: Line): (c: Conf)
    requires Shaped(base) && Shaped(from) && Good(x)
    ensures Shaped(c)
  {
    match x
    case Value(k, i) => PutField(base, k, i, GetField(from, k, i))
    case TopOrBottom => if from.hps.topNBottom != 0 then base.(hps := base.hps.(topNBottom := 1)) else base
  }

  /** `base` with the listed fields of `from`. */
  function Restored(base: Conf, from: Conf, lines: seq<Line>): (c: Conf)
    requires Shaped(base) && Shaped(from) && AllGood(lines)
    ensures Shaped(c)
    decreases |lines|
  {
    if lines == [] then base else Restored(StoredLine(base, from, lines[0]), from, lines[1..])
  }

  function BitAfter(bit: int, x: Line): int {
    if x.Value? && x.k == Gt(GtTrg) then x.i else bit
  }

  /** Every line of a trigger bit comes while the reader's current bit is that one. */
  ghost predicate BitsRight(bit: int, lines: seq<Line>)
    decreases |lines|
  {
    lines == [] || (BitRight(bit, lines[0]) && BitsRight(BitAfter(bit, lines[0]), lines[1..]))
  }

  predicate BitRight(bit: int, x: Line) {
    x.Value? && x.k.Gt? && PerBit(x.k.g) && !x.k.g.GtTrg? ==> bit == x.i
  }

  lemma InstanceArgument(c: Conf, k: Key, i: nat)
    requires Shaped(c) && Field(k, i)
    requires k.Pair? || k.Single? || k.Mult? || k == Fee(FeePrescale) || k == Hps(HpsPrescale) || k == Gt(GtTrg)
    ensures GetField(c, k, i) != [] && GetField(c, k, i)[0] == Num(i)
  {
  }

  lemma StoreAgrees(c: Core, from: Conf, k: Key, i: nat)
    requires ShapedCore(c) && Shaped(from) && Field(k, i) && BitRight(c.trgBit, Value(k, i))
    ensures StoreKey(c, k, GetField(from, k, i))
         == (Core(StoredLine(c.conf, from, Value(k, i)), BitAfter(c.trgBit, Value(k, i)), c.msk), 0)
  {
    var a := GetField(from, k, i);
    match k
    case Gt(g) =>
      if g.GtTrg? {
        InstanceArgument(from, k, i);
        assert c.conf.gt.trg[i := PutTrg(c.conf.gt.trg[i], g, a)] == c.conf.gt.trg;
      }
    case Pair(_) => InstanceArgument(from, k, i);
    case Single(_) => InstanceArgument(from, k, i);
    case Mult(_) => InstanceArgument(from, k, i);
    case Fee(f) => if f.FeePrescale? { InstanceArgument(from, k, i); }
    case Hps(h) => if h.HpsPrescale? { InstanceArgument(from, k, i); }
    case FthodoEmin =>
  }

  lemma LineBack(r: Reader, host: string, from: Conf, x: Line)
    requires ShapedCore(r.core) && r.gate.active && Shaped(from) && FloatsPrintable(from)
    requires Good(x) && BitRight(r.core.trgBit, x)
    ensures var (after, code) := ReadLine(r, host, LineText(from, x));
            && after.gate.active && code == 0
            && after.core == Core(StoredLine(r.core.conf, from, x), BitAfter(r.core.trgBit, x), r.core.msk)
  {
    match x
    case Value(k, i) =>
      ValueLine(r, host, from, k, i);
      StoreAgrees(r.core, from, k, i);
    case TopOrBottom =>
      if from.hps.topNBottom != 0 {
        TopLine(r, host);
      } else {
        BottomLine(r, host);
      }
  }

  lemma {:induction false} LinesBack(r: Reader, host: string, from: Conf, lines: seq<Line>)
    requires ShapedCore(r.core) && r.gate.active && Shaped(from) && FloatsPrintable(from)
    requires AllGood(lines) && BitsRight(r.core.trgBit, lines)
    ensures var (after, code) := ReadLines(r, host, Texts(from, lines));
            code == 0 && after.gate.active && after.core.conf == Restored(r.core.conf, from, lines)
    decreases |lines|
  {
    if lines != [] {
      var texts := Texts(from, lines);
      assert texts[1..] == Texts(from, lines[1..]);
      LineBack(r, host, from, lines[0]);
      LinesBack(ReadLine(r, host, texts[0]).0, host, from, lines[1..]);
    }
  }

  lemma StoredElsewhere(base: Conf, from: Conf, x: Line, k: Key, i: nat)
    requires Shaped(base) && Shaped(from) && Good(x) && Field(k, i)
    ensures GetField(StoredLine(base, from, x), k, i)
         == if x == Value(k, i) then GetField(from, k, i) else GetField(base, k, i)
  {
    if x.Value? {
      if x == Value(k, i) {
        StoreThenPrint(base, from, k, i);
      } else {
        StoreElsewhere(base, x.k, x.i, GetField(from, x.k, x.i), k, i);
      }
    }
  }

  /** Each field comes from the listing if its line is there, else it is as before. */
  lemma {:induction false} RestoredField(base: Conf, from: Conf, lines: seq<Line>, k: Key, i: nat)
    requires Shaped(base) && Shaped(from) && AllGood(lines) && Field(k, i)
    ensures GetField(Restored(base, from, lines), k, i)
         == if Value(k, i) in lines then GetField(from, k, i) else GetField(base, k, i)
    decreases |lines|
  {
    if lines != [] {
      StoredElsewhere(base, from, lines[0], k, i);
      RestoredField(StoredLine(base, from, lines[0]), from, lines[1..], k, i);
      assert lines == [lines[0]] + lines[1..];
    }
  }

  lemma PutFieldTop(c: Conf, k: Key, i: nat, a: seq<Arg>)
    requires Shaped(c) && Field(k, i)
    ensures PutField(c, k, i, a).hps.topNBottom == c.hps.topNBottom
    ensures PutField(c, k, i, a).streaming == c.streaming && PutField(c, k, i, a).payloadEn == c.payloadEn
    ensures PutField(c, k, i, a).fiberEn == c.fiberEn
  {
  }

  /** The rest of the configuration, and what becomes of the top/bottom flag. */
  lemma {:induction false} RestoredRest(base: Conf, from: Conf, lines: seq<Line>)
    requires Shaped(base) && Shaped(from) && AllGood(lines)
    ensures var c := Restored(base, from, lines);
            && c.streaming == base.streaming && c.payloadEn == base.payloadEn && c.fiberEn == base.fiberEn
            && c.hps.topNBottom
               == if TopOrBottom in lines && from.hps.topNBottom != 0 then 1 else base.hps.topNBottom
    decreases |lines|
  {
    if lines != [] {
      if lines[0].Value? {
        PutFieldTop(base, lines[0].k, lines[0].i, GetField(from, lines[0].k, lines[0].i));
      }
      RestoredRest(StoredLine(base, from, lines[0]), from, lines[1..]);
      assert lines == [lines[0]] + lines[1..];
    }
  }

  // ---------------------------------------------------------------- what the listings hold

  lemma {:induction false} EachAll(block: nat -> seq<Line>, n: nat, p: Line -> bool)
    requires forall i: nat, x :: i < n && x in block(i) ==> p(x)
    ensures forall x :: x in Each(block, n) ==> p(x)
  {
    EachSnoc(block, n);
    if n > 0 {
      EachAll(block, n - 1, p);
    }
  }

  lemma {:induction false} EachHas(block: nat -> seq<Line>, n: nat, i: nat, x: Line)
    requires i < n && x in block(i)
    ensures x in Each(block, n)
  {
    EachSnoc(block, n);
    if i < n - 1 {
      EachHas(block, n - 1, i, x);
    }
  }

  predicate GtLine(x: Line) {
    x.Value? && x.k.Gt? && Field(x.k, x.i)
  }

  predicate HpsLine(x: Line) {
    x.Value? ==> !x.k.Gt? && Field(x.k, x.i)
  }

  lemma GtListing()
    ensures forall x :: x in GtLines() ==> GtLine(x)
  {
    EachAll(TrgLines, 32, GtLine);
  }

  lemma GtComplete(k: Key, i: nat)
    requires k.Gt? && Field(k, i)
    ensures Value(k, i) in GtLines()
  {
    if PerBit(k.g) {
      assert Value(k, i) in TrgLines(i);
      EachHas(TrgLines, 32, i, Value(k, i));
    }
  }

  lemma HpsBlocks(i: nat)
    ensures i < 4 ==> forall x :: x in PairLines(i) ==> HpsLine(x)
    ensures i < 4 ==> forall x :: x in SingleLines(i) ==> HpsLine(x)
    ensures i < 2 ==> forall x :: x in MultLines(i) ==> HpsLine(x)
    ensures i < 7 ==> forall x :: x in FeeLine(i) ==> HpsLine(x)
    ensures i < 32 ==> forall x :: x in PrescaleLine(i) ==> HpsLine(x)
  {
  }

  ghost predicate AllHps(lines: seq<Line>) {
    forall x :: x in lines ==> HpsLine(x)
  }

  lemma AllHpsJoin(a: seq<Line>, b: seq<Line>)
    requires AllHps(a) && AllHps(b)
    ensures AllHps(a + b)
  {
  }

  lemma HpsCalib()
    ensures AllHps(CalibLines())
  {
    var c := CalibLines();
    forall j | 0 <= j < |c| ensures HpsLine(c[j]) {
    }
  }

  lemma HpsFee()
    ensures AllHps(FeeLines())
  {
    forall i: nat, x | i < 7 && x in FeeLine(i) ensures HpsLine(x) {
      HpsBlocks(i);
    }
    EachAll(FeeLine, 7, HpsLine);
    AllHpsJoin([Value(Fee(FeeEn), 0), Value(Fee(FeeEmin), 0), Value(Fee(FeeEmax), 0), Value(Fee(FeeNmin), 0)],
               Each(FeeLine, 7));
  }

  lemma HpsEach()
    ensures AllHps(Each(PairLines, 4))
    ensures AllHps(Each(SingleLines, 4))
    ensures AllHps(Each(MultLines, 2))
    ensures AllHps(Each(PrescaleLine, 32))
  {
    forall i: nat, x | i < 4 && x in PairLines(i) ensures HpsLine(x) { HpsBlocks(i); }
    EachAll(PairLines, 4, HpsLine);
    forall i: nat, x | i < 4 && x in SingleLines(i) ensures HpsLine(x) { HpsBlocks(i); }
    EachAll(SingleLines, 4, HpsLine);
    forall i: nat, x | i < 2 && x in MultLines(i) ensures HpsLine(x) { HpsBlocks(i); }
    EachAll(MultLines, 2, HpsLine);
    forall i: nat, x | i < 32 && x in PrescaleLine(i) ensures HpsLine(x) { HpsBlocks(i); }
    EachAll(PrescaleLine, 32, HpsLine);
  }

  lemma HpsParts(j: nat)
    requires j < 8
    ensures AllHps(HpsPart(j))
  {
    match j
    case 0 => HpsEach();
    case 1 => HpsCalib();
    case 2 => HpsEach();
    case 3 => HpsEach();
    case 4 => HpsEach();
    case 5 => HpsFee();
    case 6 =>
    case 7 => HpsEach();
  }

  lemma HpsListing()
    ensures AllHps(HpsLines())
  {
    forall j: nat, x | j < 8 && x in HpsPart(j) ensures HpsLine(x) {
      HpsParts(j);
    }
    EachAll(HpsPart, 8, HpsLine);
  }

  lemma PairListed(p: PairKey, i: nat)
    ensures Value(Pair(p), i) in PairLines(i)
  {
    var x := Value(Pair(p), i);
    match p
    case PairEmin => assert PairLines(i)[0] == x;
    case PairEmax => assert PairLines(i)[1] == x;
    case PairNmin => assert PairLines(i)[2] == x;
    case PairTimeCoincidence => assert PairLines(i)[3] == x;
    case PairSummaxMin => assert PairLines(i)[4] == x;
    case PairDiffmax => assert PairLines(i)[5] == x;
    case PairEnergydist => assert PairLines(i)[6] == x;
    case PairCoplanarity => assert PairLines(i)[7] == x;
    case PairEn => assert PairLines(i)[8] == x;
    case PairHodo => assert PairLines(i)[9] == x;
  }

  lemma SingleListed(s: SingleKey, i: nat)
    ensures Value(Single(s), i) in SingleLines(i)
  {
    var x := Value(Single(s), i);
    match s
    case SingleEmin => assert SingleLines(i)[0] == x;
    case SingleEmax => assert SingleLines(i)[1] == x;
    case SingleNmin => assert SingleLines(i)[2] == x;
    case SingleXmin => assert SingleLines(i)[3] == x;
    case SinglePde => assert SingleLines(i)[4] == x;
    case SingleHodo => assert SingleLines(i)[5] == x;
    case SingleEn => assert SingleLines(i)[6] == x;
  }

  lemma MultListed(m: MultKey, i: nat)
    ensures Value(Mult(m), i) in MultLines(i)
  {
    var x := Value(Mult(m), i);
    match m
    case MultEmin => assert MultLines(i)[0] == x;
    case MultEmax => assert MultLines(i)[1] == x;
    case MultNmin => assert MultLines(i)[2] == x;
    case MultMin => assert MultLines(i)[3] == x;
    case MultDt => assert MultLines(i)[4] == x;
    case MultEn => assert MultLines(i)[5] == x;
  }

  lemma SoloListed(h: HpsKey)
    requires IsSolo(h) && !h.HpsLatency?
    ensures Value(Hps(h), 0) in CalibLines()
  {
    match h
    case EcalHitDt => assert CalibLines()[2] == Value(Hps(h), 0);
    case EcalSeedThr => assert CalibLines()[3] == Value(Hps(h), 0);
    case FadchitThr => assert CalibLines()[4] == Value(Hps(h), 0);
    case HodoThr => assert CalibLines()[5] == Value(Hps(h), 0);
    case HodoDt => assert CalibLines()[6] == Value(Hps(h), 0);
    case CalibTopEn => assert CalibLines()[7] == Value(Hps(h), 0);
    case CalibBotEn => assert CalibLines()[8] == Value(Hps(h), 0);
    case CosmicDt => assert CalibLines()[9] == Value(Hps(h), 0);
    case CosmicTopEn => assert CalibLines()[10] == Value(Hps(h), 0);
    case CosmicBotEn => assert CalibLines()[11] == Value(Hps(h), 0);
    case PulserEn => assert CalibLines()[12] == Value(Hps(h), 0);
    case PulserFreq => assert CalibLines()[13] == Value(Hps(h), 0);
  }

  /** The part that holds a field's line. */
  function PartOf(k: Key): nat {
    match k
    case Pair(_) => 0
    case Single(_) => 2
    case Mult(_) => 4
    case Fee(_) => 5
    case Hps(h) => if h.HpsPrescale? then 7 else if h.HpsLatency? then 6 else 1
    case _ => 1
  }

  lemma InPart(k: Key, i: nat)
    requires !k.Gt? && Field(k, i)
    ensures Value(k, i) in HpsPart(PartOf(k))
  {
    match k
    case Pair(p) => PairListed(p, i); EachHas(PairLines, 4, i, Value(k, i));
    case Single(s) => SingleListed(s, i); EachHas(SingleLines, 4, i, Value(k, i));
    case Mult(m) => MultListed(m, i); EachHas(MultLines, 2, i, Value(k, i));
    case Fee(f) => FeeListed(f, i);
    case Hps(h) =>
      if h.HpsPrescale? {
        EachHas(PrescaleLine, 32, i, Value(k, i));
      } else if !h.HpsLatency? {
        SoloListed(h);
      }
    case FthodoEmin => assert CalibLines()[0] == Value(FthodoEmin, 0);
  }

  lemma FeeListed(f: FeeKey, i: nat)
    requires Field(Fee(f), i)
    ensures Value(Fee(f), i) in FeeLines()
  {
    if f.FeePrescale? {
      EachHas(FeeLine, 7, i, Value(Fee(f), i));
    }
  }

  lemma HpsComplete(k: Key, i: nat)
    requires !k.Gt? && Field(k, i)
    ensures Value(k, i) in HpsLines()
  {
    InPart(k, i);
    EachHas(HpsPart, 8, PartOf(k), Value(k, i));
  }

  lemma TopListed()
    ensures TopOrBottom in HpsLines()
  {
    assert HpsPart(1)[1] == TopOrBottom;
    EachHas(HpsPart, 8, 1, TopOrBottom);
  }

  lemma {:induction false} BitsAppend(bit: int, a: seq<Line>, b: seq<Line>)
    requires BitsRight(bit, a) && forall any :: BitsRight(any, b)
    ensures BitsRight(bit, a + b)
    decreases |a|
  {
    if a == [] {
      assert a + b == b;
    } else {
      assert (a + b)[1..] == a[1..] + b;
      BitsAppend(BitAfter(bit, a[0]), a[1..], b);
    }
  }

  lemma {:induction false} BitsSame(bit: int, lines: seq<Line>)
    requires forall j :: 0 <= j < |lines| ==> BitRight(bit, lines[j]) && BitAfter(bit, lines[j]) == bit
    ensures BitsRight(bit, lines)
    decreases |lines|
  {
    if lines != [] {
      BitsSame(bit, lines[1..]);
    }
  }

  lemma TrgBits(bit: int, i: nat)
    ensures BitsRight(bit, TrgLines(i))
  {
    BitsSame(i, TrgLines(i)[1..]);
  }

  lemma {:induction false} EachBits(bit: int, n: nat)
    ensures BitsRight(bit, Each(TrgLines, n))
  {
    EachSnoc(TrgLines, n);
    if n > 0 {
      EachBits(bit, n - 1);
      var last := TrgLines(n - 1);
      forall any ensures BitsRight(any, last) {
        TrgBits(any, n - 1);
      }
      BitsAppend(bit, Each(TrgLines, n - 1), last);
    }
  }

  /** The listing sets the trigger bit before it is used, whatever the bit was. */
  lemma GtBits(bit: int)
    ensures BitsRight(bit, GtLines())
  {
    forall any ensures BitsRight(any, Each(TrgLines, 32)) {
      EachBits(any, 32);
    }
    BitsSame(bit, [Value(Gt(GtLatency), 0), Value(Gt(GtWidth), 0)]);
    BitsAppend(bit, [Value(Gt(GtLatency), 0), Value(Gt(GtWidth), 0)], Each(TrgLines, 32));
  }

  lemma {:induction false} BitsPrefix(bit: int, lines: seq<Line>, n: nat)
    requires BitsRight(bit, lines) && n <= |lines|
    ensures BitsRight(bit, lines[..n])
    decreases |lines|
  {
    if n > 0 {
      assert lines[..n][1..] == lines[1..][..n - 1];
      BitsPrefix(BitAfter(bit, lines[0]), lines[1..], n - 1);
    }
  }

  // ---------------------------------------------------------------- whole texts

  function CrateLine(name: string): string {
    CRATE + (" " + name + "\n")
  }

  ghost predicate CrateName(name: string, host: string) {
    0 < |name| <= 200 && AllIn(name, NonSpace) && (name == host || name == "all")
  }

  lemma CrateWords(name: string)
    requires name != "" && AllIn(name, NonSpace)
    ensures ScanWord(CrateLine(name)) == Some((CRATE, " " + name + "\n"))
    ensures ScanWord(" " + name + "\n") == Some((name, "\n"))
  {
    ScanFirstWord(CRATE, " " + name + "\n");
    ScanFirstWord(name, "\n");
  }

  lemma CrateActivates(r: Reader, host: string, name: string)
    requires ShapedCore(r.core) && CrateName(name, host)
    ensures ReadLine(r, host, CrateLine(name)) == (Reader(r.core, Gate(true, CRATE, name)), 0)
  {
    CrateWords(name);
    assert GateAfter(r.gate, host, CrateLine(name)) == Gate(true, CRATE, name);
  }

  lemma CrateWhole(name: string)
    requires 0 < |name| <= 200 && AllIn(name, NonSpace)
    ensures WholeLine(CrateLine(name))
  {
    assert CrateLine(name) == CRATE + ((" " + name) + "\n");
    Joined(CRATE, " " + name);
  }

  /** Any printed prefix of any well-ordered listing, read under a crate line for this host. */
  lemma ReadBack(r: Reader, host: string, name: string, from: Conf, lines: seq<Line>, n: nat)
    requires ShapedCore(r.core) && CrateName(name, host) && Shaped(from) && FloatsPrintable(from)
    requires AllGood(lines) && BitsRight(r.core.trgBit, lines) && n <= |lines|
    ensures var o := ReadText(r, host, CrateLine(name) + Concat(Texts(from, lines)[..n]));
            o.Returned? && o.code == 0 && o.reader.core.conf == Restored(r.core.conf, from, lines[..n])
  {
    var part := lines[..n];
    var texts := Texts(from, part);
    assert Texts(from, lines)[..n] == texts;
    forall j | 0 <= j < |texts| ensures WholeLine(texts[j]) {
      LineWhole(from, part[j]);
    }
    CrateActivates(r, host, name);
    CrateWhole(name);
    SplitFirst(CrateLine(name), Concat(texts));
    SplitConcat(texts, "");
    assert Concat(texts) + "" == Concat(texts) && texts + [] == texts;
    var all := [CrateLine(name)] + texts;
    assert Split(CrateLine(name) + Concat(texts)) == Pieces(all, true);
    assert all[1..] == texts;
    BitsPrefix(r.core.trgBit, lines, n);
    LinesBack(Reader(r.core, Gate(true, CRATE, name)), host, from, part);
  }

  /** Printing only `lines[..n]` and reading it back gives each printed field its value and leaves the others. */
  ghost predicate FieldsRestored(after: Conf, base: Conf, from: Conf, printed: seq<Line>)
    requires Shaped(after) && Shaped(base) && Shaped(from)
  {
    forall k: Key, i: nat :: Field(k, i) ==>
      GetField(after, k, i) == GetField(if Value(k, i) in printed then from else base, k, i)
  }

  lemma AllFieldsRestored(base: Conf, from: Conf, lines: seq<Line>)
    requires Shaped(base) && Shaped(from) && AllGood(lines)
    ensures FieldsRestored(Restored(base, from, lines), base, from, lines)
  {
    forall k: Key, i: nat | Field(k, i)
      ensures GetField(Restored(base, from, lines), k, i)
           == GetField(if Value(k, i) in lines then from else base, k, i)
    {
      RestoredField(base, from, lines, k, i);
    }
  }

  lemma GtSame(c: Conf, d: Conf)
    requires Shaped(c) && Shaped(d) && SameFields(c, d, true)
    ensures c.gt == d.gt
  {
    assert GetField(c, Gt(GtLatency), 0) == GetField(d, Gt(GtLatency), 0);
    assert GetField(c, Gt(GtWidth), 0) == GetField(d, Gt(GtWidth), 0);
    forall i: nat | i < 32 ensures c.gt.trg[i] == d.gt.trg[i] {
      forall g | PerBit(g) ensures GetTrg(c.gt.trg[i], g, i) == GetTrg(d.gt.trg[i], g, i) {
        assert GetField(c, Gt(g), i) == GetField(d, Gt(g), i);
      }
      TrgSame(c.gt.trg[i], d.gt.trg[i], i);
    }
  }

  lemma TrgSame(t: TrgBit, u: TrgBit, i: nat)
    requires i < 32 && forall g :: PerBit(g) ==> GetTrg(t, g, i) == GetTrg(u, g, i)
    ensures t == u
  {
    assert GetTrg(t, GtStriggerMask, i) == GetTrg(u, GtStriggerMask, i);
    assert GetTrg(t, GtCtriggerMask, i) == GetTrg(u, GtCtriggerMask, i);
    assert GetTrg(t, GtSectorMask, i) == GetTrg(u, GtSectorMask, i);
    assert GetTrg(t, GtSectorMultMin, i) == GetTrg(u, GtSectorMultMin, i);
    assert GetTrg(t, GtSectorWidth, i) == GetTrg(u, GtSectorWidth, i);
    assert GetTrg(t, GtPulserFreq, i) == GetTrg(u, GtPulserFreq, i);
    assert GetTrg(t, GtDelay, i) == GetTrg(u, GtDelay, i);
    assert GetTrg(t, GtPrescale, i) == GetTrg(u, GtPrescale, i);
  }

  lemma PairSame(t: PairTrig, u: PairTrig, i: nat)
    requires i < 4 && forall p :: GetPair(t, p, i) == GetPair(u, p, i)
    ensures t == u
  {
    assert GetPair(t, PairEmin, i) == GetPair(u, PairEmin, i);
    assert GetPair(t, PairEmax, i) == GetPair(u, PairEmax, i);
    assert GetPair(t, PairNmin, i) == GetPair(u, PairNmin, i);
    assert GetPair(t, PairTimeCoincidence, i) == GetPair(u, PairTimeCoincidence, i);
    assert GetPair(t, PairSummaxMin, i) == GetPair(u, PairSummaxMin, i);
    assert GetPair(t, PairDiffmax, i) == GetPair(u, PairDiffmax, i);
    assert GetPair(t, PairEnergydist, i) == GetPair(u, PairEnergydist, i);
    assert GetPair(t, PairCoplanarity, i) == GetPair(u, PairCoplanarity, i);
    assert GetPair(t, PairEn, i) == GetPair(u, PairEn, i);
    assert GetPair(t, PairHodo, i) == GetPair(u, PairHodo, i);
  }

  lemma SingleSame(t: SingleTrig, u: SingleTrig, i: nat)
    requires i < 4 && forall s :: GetSingle(t, s, i) == GetSingle(u, s, i)
    ensures t == u
  {
    assert GetSingle(t, SingleEmin, i) == GetSingle(u, SingleEmin, i);
    assert GetSingle(t, SingleEmax, i) == GetSingle(u, SingleEmax, i);
    assert GetSingle(t, SingleNmin, i) == GetSingle(u, SingleNmin, i);
    assert GetSingle(t, SingleXmin, i) == GetSingle(u, SingleXmin, i);
    assert GetSingle(t, SinglePde, i) == GetSingle(u, SinglePde, i);
    assert GetSingle(t, SingleHodo, i) == GetSingle(u, SingleHodo, i);
    assert GetSingle(t, SingleEn, i) == GetSingle(u, SingleEn, i);
  }

  lemma MultSame(t: MultTrig, u: MultTrig, i: nat)
    requires i < 2 && forall m :: GetMult(t, m, i) == GetMult(u, m, i)
    ensures t == u
  {
    assert GetMult(t, MultEmin, i) == GetMult(u, MultEmin, i);
    assert GetMult(t, MultEmax, i) == GetMult(u, MultEmax, i);
    assert GetMult(t, MultNmin, i) == GetMult(u, MultNmin, i);
    assert GetMult(t, MultMin, i) == GetMult(u, MultMin, i);
    assert GetMult(t, MultDt, i) == GetMult(u, MultDt, i);
    assert GetMult(t, MultEn, i) == GetMult(u, MultEn, i);
  }

  lemma FeeSame(t: FeeTrig, u: FeeTrig)
    requires |t.regions| == |u.regions| == 7
    requires forall f, i: nat :: Field(Fee(f), i) ==> GetFee(t, f, i) == GetFee(u, f, i)
    ensures t == u
  {
    assert Field(Fee(FeeEn), 0) && Field(Fee(FeeEmin), 0) && Field(Fee(FeeEmax), 0) && Field(Fee(FeeNmin), 0);
    forall i: nat | i < 7 ensures t.regions[i] == u.regions[i] {
      assert Field(Fee(FeePrescale), i);
      assert GetFee(t, FeePrescale, i) == GetFee(u, FeePrescale, i);
    }
  }

  lemma SoloSame(t: HpsSolo, u: HpsSolo)
    requires forall h :: IsSolo(h) ==> GetSolo(t, h) == GetSolo(u, h)
    ensures t == u
  {
    assert GetSolo(t, EcalHitDt) == GetSolo(u, EcalHitDt);
    assert GetSolo(t, EcalSeedThr) == GetSolo(u, EcalSeedThr);
    assert GetSolo(t, FadchitThr) == GetSolo(u, FadchitThr);
    assert GetSolo(t, HodoThr) == GetSolo(u, HodoThr);
    assert GetSolo(t, HodoDt) == GetSolo(u, HodoDt);
    assert GetSolo(t, CalibTopEn) == GetSolo(u, CalibTopEn);
    assert GetSolo(t, CalibBotEn) == GetSolo(u, CalibBotEn);
    assert GetSolo(t, CosmicDt) == GetSolo(u, CosmicDt);
    assert GetSolo(t, CosmicTopEn) == GetSolo(u, CosmicTopEn);
    assert GetSolo(t, CosmicBotEn) == GetSolo(u, CosmicBotEn);
    assert GetSolo(t, PulserEn) == GetSolo(u, PulserEn);
    assert GetSolo(t, HpsKey.PulserFreq) == GetSolo(u, HpsKey.PulserFreq);
    assert GetSolo(t, HpsLatency) == GetSolo(u, HpsLatency);
  }

  ghost predicate SameFields(c: Conf, d: Conf, gt: bool)
    requires Shaped(c) && Shaped(d)
  {
    forall k: Key, i: nat :: k.Gt? == gt && Field(k, i) ==> GetField(c, k, i) == GetField(d, k, i)
  }

  lemma HpsArrays(c: Conf, d: Conf)
    requires Shaped(c) && Shaped(d) && SameFields(c, d, false)
    ensures c.hps.pairs == d.hps.pairs && c.hps.singles == d.hps.singles && c.hps.mults == d.hps.mults
    ensures c.hps.prescales == d.hps.prescales
  {
    forall i: nat | i < 4 ensures c.hps.pairs[i] == d.hps.pairs[i] {
      forall p ensures GetPair(c.hps.pairs[i], p, i) == GetPair(d.hps.pairs[i], p, i) {
        assert GetField(c, Pair(p), i) == GetField(d, Pair(p), i);
      }
      PairSame(c.hps.pairs[i], d.hps.pairs[i], i);
    }
    forall i: nat | i < 4 ensures c.hps.singles[i] == d.hps.singles[i] {
      forall s ensures GetSingle(c.hps.singles[i], s, i) == GetSingle(d.hps.singles[i], s, i) {
        assert GetField(c, Single(s), i) == GetField(d, Single(s), i);
      }
      SingleSame(c.hps.singles[i], d.hps.singles[i], i);
    }
    forall i: nat | i < 2 ensures c.hps.mults[i] == d.hps.mults[i] {
      forall m ensures GetMult(c.hps.mults[i], m, i) == GetMult(d.hps.mults[i], m, i) {
        assert GetField(c, Mult(m), i) == GetField(d, Mult(m), i);
      }
      MultSame(c.hps.mults[i], d.hps.mults[i], i);
    }
    forall i: nat | i < 32 ensures c.hps.prescales[i] == d.hps.prescales[i] {
      assert GetField(c, Hps(HpsPrescale), i) == GetField(d, Hps(HpsPrescale), i);
    }
  }

  lemma HpsSame(c: Conf, d: Conf)
    requires Shaped(c) && Shaped(d) && SameFields(c, d, false)
    ensures c.hps == d.hps.(topNBottom := c.hps.topNBottom) && c.fthodoEmin == d.fthodoEmin
  {
    HpsArrays(c, d);
    forall f, i: nat | Field(Fee(f), i) ensures GetFee(c.hps.fee, f, i) == GetFee(d.hps.fee, f, i) {
      assert GetField(c, Fee(f), i) == GetField(d, Fee(f), i);
    }
    FeeSame(c.hps.fee, d.hps.fee);
    forall h | IsSolo(h) ensures GetSolo(c.hps.solo, h) == GetSolo(d.hps.solo, h) {
      assert GetField(c, Hps(h), 0) == GetField(d, Hps(h), 0);
    }
    SoloSame(c.hps.solo, d.hps.solo);
    assert GetField(c, FthodoEmin, 0) == GetField(d, FthodoEmin, 0);
  }

  ghost predicate SettingsKept(c: Conf, base: Conf) {
    c.streaming == base.streaming && c.payloadEn == base.payloadEn && c.fiberEn == base.fiberEn
  }

  ghost predicate OnlySection(lines: seq<Line>, gt: bool) {
    && AllGood(lines)
    && (forall j :: 0 <= j < |lines| && lines[j].Value? ==> lines[j].k.Gt? == gt)
    && (gt ==> TopOrBottom !in lines)
  }

  ghost predicate WholeSection(lines: seq<Line>, gt: bool) {
    forall k: Key, i: nat :: k.Gt? == gt && Field(k, i) ==> Value(k, i) in lines
  }

  ghost predicate AnyBit(lines: seq<Line>) {
    forall bit: int :: BitsRight(bit, lines)
  }

  /** A listing of one section: just its fields, all of them, trigger bits in order. */
  ghost predicate Lists(lines: seq<Line>, gt: bool) {
    OnlySection(lines, gt) && WholeSection(lines, gt) && AnyBit(lines)
  }

  lemma OnlyGt(lines: seq<Line>)
    requires forall x :: x in lines ==> GtLine(x)
    ensures OnlySection(lines, true)
  {
    forall j | 0 <= j < |lines| ensures GtLine(lines[j]) {
      assert lines[j] in lines;
    }
  }

  lemma OnlyHps(lines: seq<Line>)
    requires AllHps(lines)
    ensures OnlySection(lines, false) && AnyBit(lines)
  {
    forall j | 0 <= j < |lines| ensures HpsLine(lines[j]) {
      assert lines[j] in lines;
    }
    forall bit: int ensures BitsRight(bit, lines) {
      BitsSame(bit, lines);
    }
  }

  lemma WholeGt()
    ensures WholeSection(GtLines(), true)
  {
    forall k: Key, i: nat | k.Gt? && Field(k, i) ensures Value(k, i) in GtLines() {
      GtComplete(k, i);
    }
  }

  lemma WholeHps()
    ensures WholeSection(HpsLines(), false)
  {
    forall k: Key, i: nat | !k.Gt? && Field(k, i) ensures Value(k, i) in HpsLines() {
      HpsComplete(k, i);
    }
  }

  lemma GtAnyBit()
    ensures AnyBit(GtLines())
  {
    forall bit: int ensures BitsRight(bit, GtLines()) {
      GtBits(bit);
    }
  }

  lemma GtLists()
    ensures Lists(GtLines(), true)
  {
    GtListing();
    OnlyGt(GtLines());
    WholeGt();
    GtAnyBit();
  }

  lemma HpsLists()
    ensures Lists(HpsLines(), false) && TopOrBottom in HpsLines()
  {
    HpsListing();
    OnlyHps(HpsLines());
    WholeHps();
    TopListed();
  }

  /** The text of the first `n` lines of a listing. */
  function Listing(from: Conf, lines: seq<Line>, n: nat): string
    requires Shaped(from) && AllGood(lines) && n <= |lines|
  {
    Concat(Texts(from, lines)[..n])
  }

  lemma OtherSectionKept(c: Conf, base: Conf, from: Conf, lines: seq<Line>, n: nat, gt: bool)
    requires Shaped(c) && Shaped(base) && Shaped(from) && Lists(lines, gt) && n <= |lines|
    requires FieldsRestored(c, base, from, lines[..n])
    ensures SameFields(c, base, !gt)
  {
    assert forall x :: x in lines[..n] ==> x in lines;
  }

  lemma SectionRestored(c: Conf, base: Conf, from: Conf, lines: seq<Line>, gt: bool)
    requires Shaped(c) && Shaped(base) && Shaped(from) && Lists(lines, gt)
    requires FieldsRestored(c, base, from, lines)
    ensures SameFields(c, from, gt)
  {
  }

  lemma AnyListing(r: Reader, host: string, name: string, from: Conf, lines: seq<Line>, n: nat, gt: bool)
    requires ShapedCore(r.core) && CrateName(name, host) && Shaped(from) && FloatsPrintable(from)
    requires Lists(lines, gt) && n <= |lines|
    ensures var o := ReadText(r, host, CrateLine(name) + Listing(from, lines, n));
            && o.Returned? && o.code == 0
            && o.reader.core.conf == Restored(r.core.conf, from, lines[..n])
            && FieldsRestored(o.reader.core.conf, r.core.conf, from, lines[..n])
            && SettingsKept(o.reader.core.conf, r.core.conf)
            && SameFields(o.reader.core.conf, r.core.conf, !gt)
            && (n == |lines| ==> SameFields(o.reader.core.conf, from, gt))
  {
    var base, part := r.core.conf, lines[..n];
    ReadBack(r, host, name, from, lines, n);
    AllFieldsRestored(base, from, part);
    RestoredRest(base, from, part);
    var c := Restored(base, from, part);
    OtherSectionKept(c, base, from, lines, n, gt);
    if n == |lines| {
      assert part == lines;
      SectionRestored(c, base, from, lines, gt);
    }
  }

  /** Global trigger: `n` printed lines restore just their fields; all the lines restore the section, and
      nothing outside it changes. */
  lemma GtRoundTrip(r: Reader, host: string, name: string, from: Conf, lines: seq<Line>, n: nat)
    requires ShapedCore(r.core) && CrateName(name, host) && Shaped(from) && FloatsPrintable(from)
    requires lines == GtLines() && n <= |lines|
    ensures AllGood(lines)
    ensures var o := ReadText(r, host, CrateLine(name) + Listing(from, lines, n));
            var c, base := o.reader.core.conf, r.core.conf;
            && o.Returned? && o.code == 0 && FieldsRestored(c, base, from, lines[..n])
            && SettingsKept(c, base) && c.hps == base.hps && c.fthodoEmin == base.fthodoEmin
            && (n == |lines| ==> c.gt == from.gt)
  {
    GtLists();
    AnyListing(r, host, name, from, lines, n, true);
    GtAnswer(r.core.conf, from, lines, n);
  }

  lemma GtAnswer(base: Conf, from: Conf, lines: seq<Line>, n: nat)
    requires Shaped(base) && Shaped(from) && Lists(lines, true) && n <= |lines|
    requires SameFields(Restored(base, from, lines[..n]), base, false)
    requires n == |lines| ==> SameFields(Restored(base, from, lines[..n]), from, true)
    ensures var c := Restored(base, from, lines[..n]);
            c.hps == base.hps && c.fthodoEmin == base.fthodoEmin && (n == |lines| ==> c.gt == from.gt)
  {
    var c := Restored(base, from, lines[..n]);
    RestoredRest(base, from, lines[..n]);
    HpsSame(c, base);
    assert TopOrBottom !in lines[..n];
    if n == |lines| {
      GtSame(c, from);
    }
  }

  /** HPS: likewise, except for the bottom half. */
  lemma HpsRoundTrip(r: Reader, host: string, name: string, from: Conf, lines: seq<Line>, n: nat)
    requires ShapedCore(r.core) && CrateName(name, host) && Shaped(from) && FloatsPrintable(from)
    requires lines == HpsLines() && n <= |lines|
    ensures AllGood(lines)
    ensures var o := ReadText(r, host, CrateLine(name) + Listing(from, lines, n));
            var c, base := o.reader.core.conf, r.core.conf;
            && o.Returned? && o.code == 0 && FieldsRestored(c, base, from, lines[..n])
            && SettingsKept(c, base) && c.gt == base.gt
            && (n == |lines| ==> HpsRestored(c, base, from))
  {
    HpsLists();
    AnyListing(r, host, name, from, lines, n, false);
    HpsAnswer(r.core.conf, from, lines, n);
  }

  lemma HpsAnswer(base: Conf, from: Conf, lines: seq<Line>, n: nat)
    requires Shaped(base) && Shaped(from) && Lists(lines, false) && TopOrBottom in lines && n <= |lines|
    requires SameFields(Restored(base, from, lines[..n]), base, true)
    requires n == |lines| ==> SameFields(Restored(base, from, lines[..n]), from, false)
    ensures var c := Restored(base, from, lines[..n]);
            c.gt == base.gt && (n == |lines| ==> HpsRestored(c, base, from))
  {
    var c := Restored(base, from, lines[..n]);
    GtSame(c, base);
    if n == |lines| {
      assert lines[..n] == lines;
      HpsSame(c, from);
      RestoredRest(base, from, lines);
    }
  }

  /** All of the HPS section comes back, the top/bottom flag only if it was 1, or 0 in both. */
  ghost predicate HpsRestored(c: Conf, base: Conf, from: Conf) {
    && c.fthodoEmin == from.fthodoEmin
    && c.hps == from.hps.(topNBottom := if from.hps.topNBottom != 0 then 1 else base.hps.topNBottom)
  }

  lemma HpsRestoredIff(c: Conf, base: Conf, from: Conf)
    requires HpsRestored(c, base, from)
    ensures c.hps == from.hps <==> from.hps.topNBottom == 1 || (from.hps.topNBottom == 0 && base.hps.topNBottom == 0)
  {
  }

  // ---------------------------------------------------------------- printing, then reading

  /** The line of a field fits: with all that is printed before it, it stays below the limit. */
  ghost predicate LineFits(from: Conf, lines: seq<Line>, before: string, length: int, x: Line)
    requires Shaped(from) && AllGood(lines)
  {
    exists m :: 0 <= m < |lines| && lines[m] == x
      && |before| + |Concat(Texts(from, lines)[..m + 1])| < length
  }

  lemma FitsIsPrinted(from: Conf, lines: seq<Line>, before: string, length: int, n: nat, x: Line)
    requires Shaped(from) && AllGood(lines) && n <= |lines| && Prefix(before, Texts(from, lines), length, n)
    ensures x in lines[..n] <==> LineFits(from, lines, before, length, x)
  {
    if x in lines[..n] {
      var m :| 0 <= m < n && lines[..n][m] == x;
      assert lines[m] == x && |before| + |Concat(Texts(from, lines)[..m + 1])| < length;
    }
    if LineFits(from, lines, before, length, x) {
      var m :| 0 <= m < |lines| && lines[m] == x && |before| + |Concat(Texts(from, lines)[..m + 1])| < length;
      assert m + 1 <= n;
      assert lines[..n][m] == x;
    }
  }

  function SectionLines(gt: bool): seq<Line> {
    if gt then GtLines() else HpsLines()
  }

  /** The fields whose lines fit have the values printed, and everything else is as it was. */
  ghost predicate JustFitting(
    after: Conf, base: Conf, from: Conf, lines: seq<Line>, before: string, length: int)
    requires Shaped(after) && Shaped(base) && Shaped(from) && AllGood(lines)
  {
    && SettingsKept(after, base)
    && forall k: Key, i: nat :: Field(k, i) ==>
         GetField(after, k, i)
         == GetField(if LineFits(from, lines, before, length, Value(k, i)) then from else base, k, i)
  }

  lemma ListingReadsBack(
    r: Reader, host: string, name: string, from: Conf, lines: seq<Line>, gt: bool, length: int, n: nat)
    requires ShapedCore(r.core) && CrateName(name, host) && Shaped(from) && FloatsPrintable(from)
    requires Lists(lines, gt) && n <= |lines| && Prefix(CrateLine(name), Texts(from, lines), length, n)
    ensures var o := ReadText(r, host, CrateLine(name) + Concat(Texts(from, lines)[..n]));
            && o.Returned? && o.code == 0
            && JustFitting(o.reader.core.conf, r.core.conf, from, lines, CrateLine(name), length)
  {
    AnyListing(r, host, name, from, lines, n, gt);
    forall k: Key, i: nat | Field(k, i)
      ensures Value(k, i) in lines[..n] <==> LineFits(from, lines, CrateLine(name), length, Value(k, i))
    {
      FitsIsPrinted(from, lines, CrateLine(name), length, n, Value(k, i));
    }
  }

  /** What `PrintSection` leaves in a buffer that held a crate line for this host, whatever the limit,
      reads back without an error, and gives just the fields whose lines fit their values. */
  lemma UploadReadsBack(
    r: Reader, host: string, name: string, from: Conf, gt: bool, length: int, n: nat, str: string)
    requires ShapedCore(r.core) && CrateName(name, host) && Shaped(from) && FloatsPrintable(from)
    requires var lines := SectionLines(gt);
             && AllGood(lines) && n <= |lines| && Prefix(CrateLine(name), Texts(from, lines), length, n)
             && str == CrateLine(name) + Concat(Texts(from, lines)[..n])
    ensures var o := ReadText(r, host, str);
            && o.Returned? && o.code == 0
            && JustFitting(o.reader.core.conf, r.core.conf, from, SectionLines(gt), CrateLine(name), length)
  {
    if gt {
      GtLists();
      ListingReadsBack(r, host, name, from, GtLines(), gt, length, n);
    } else {
      HpsLists();
      ListingReadsBack(r, host, name, from, HpsLines(), gt, length, n);
    }
  }
}
