/**
 What single lines do to the configuration, with their keywords written out: the streaming settings,
 the trigger fields, the top/bottom flag, and the lines that end the reading with an error.
 */
module ConfigLines {
  import opened Options
  import opened Text
  import opened ConfigKeys
  import opened ConfigStore
  import opened ConfigReader
  import opened ConfigPrinter
  import opened ConfigManual
  import ConfigInvariant
  import GeneratedConfig

  // ---------------------------------------------------------------- finding the keyword

  lemma SettingInjective(a: SettingKey, b: SettingKey)
    requires SettingSuffix(a) == SettingSuffix(b)
    ensures a == b
  {
  }

  lemma SettingLetters(t: SettingKey)
    ensures var s := SettingSuffix(t); |s| >= 3 && (s[0] in "NEL" || (s[0] == 'S' && s[2] in "AN"))
  {
  }

  lemma SettingBare(t: SettingKey)
    ensures Bare(SettingSuffix(t))
  {
  }

  lemma SettingNamed(t: SettingKey, k: Key)
    requires Name(k) == Name(Setting(t))
    ensures k == Setting(t)
  {
    SettingLetters(t);
    var s := SettingSuffix(t);
    assert Name(k)[4] == s[0] && Name(k)[6] == s[2];
    if k.Setting? {
      SuffixTail("VTP_", SettingSuffix(k.t), s);
      SettingInjective(k.t, t);
    } else {
      GeneratedConfig.OtherKeyLetters(k);
    }
  }

  lemma InSettings(t: SettingKey)
    ensures Setting(t) in OTHER_KEYS
  {
    match t
    case StatsPort => assert OTHER_KEYS[0] == Setting(t);
    case StatsInst => assert OTHER_KEYS[1] == Setting(t);
    case SyncPktLen => assert OTHER_KEYS[2] == Setting(t);
    case NumConnections => assert OTHER_KEYS[3] == Setting(t);
    case NetMode => assert OTHER_KEYS[4] == Setting(t);
    case EnableEjfat => assert OTHER_KEYS[5] == Setting(t);
    case LocalPort => assert OTHER_KEYS[6] == Setting(t);
  }

  lemma KeyOfSetting(t: SettingKey)
    ensures KeyOf(Name(Setting(t))) == Some(Setting(t))
  {
    var keys, none := PRINTED_KEYS + OTHER_KEYS, [];
    InSettings(t);
    assert Setting(t) in keys;
    forall j | 0 <= j < |keys| && Name(keys[j]) == Name(Setting(t)) ensures keys[j] == Setting(t) {
      SettingNamed(t, keys[j]);
    }
    FindFirst(Name(Setting(t)), keys, none, Setting(t));
    assert keys + none == keys;
  }

  lemma SettingWord(t: SettingKey)
    ensures var w := Name(Setting(t)); w != "" && AllIn(w, NonSpace) && w != CRATE
  {
    SettingBare(t);
    assert Bare("VTP_");
    BareJoin("VTP_", SettingSuffix(t));
    BareIsWord(Name(Setting(t)));
    SettingLetters(t);
    assert Name(Setting(t))[4] == SettingSuffix(t)[0] && CRATE[4] == 'C';
  }

  // ---------------------------------------------------------------- one line with one number

  /** The text of a line with one number. */
  function NumberLine(word: string, v: int): string {
    word + (" " + DecText(v) + "\n")
  }

  /** A line of a keyword with one number is stored as that key with that number. */
  lemma NumberStored(r: Reader, host: string, word: string, k: Key, v: int)
    requires ShapedCore(r.core) && r.gate.active && -0x8000_0000 <= v <= 0x7fff_ffff
    requires word != "" && AllIn(word, NonSpace) && word != CRATE && KeyOf(word) == Some(k) && Kinds(k) == [D]
    ensures var (after, code) := ReadLine(r, host, NumberLine(word, v));
            after.gate.active && (after.core, code) == StoreKey(r.core, k, [Num(v)])
  {
    var tail := " " + DecText(v) + "\n";
    OneNumber(v);
    WordLine(r, host, word, tail);
  }

  lemma OneArgument(print1: Printer, kind: Kind, arg: Arg)
    ensures PrintSeq(print1, [kind], [arg]) == " " + print1(kind, arg)
  {
    assert [kind][1..] == [] && [arg][1..] == [];
    assert PrintSeq(print1, [kind], [arg]) == " " + print1(kind, arg) + PrintSeq(print1, [], []);
  }

  lemma OneNumber(v: int)
    requires -0x8000_0000 <= v <= 0x7fff_ffff
    ensures ScanArgs(" " + DecText(v) + "\n", [D]) == [Num(v)]
  {
    ScanPrinted([D], [Num(v)], "\n");
    OneArgument(PrintOne, D, Num(v));
  }

  /** The line is read without an error, and sets the streaming settings to `s` and nothing else. */
  ghost predicate Sets(r: Reader, host: string, word: string, v: int, s: Streaming)
    requires ShapedCore(r.core)
  {
    var (after, code) := ReadLine(r, host, NumberLine(word, v));
    code == 0 && after.gate.active && after.core == r.core.(conf := r.core.conf.(streaming := s))
  }

  lemma SettingSets(r: Reader, host: string, t: SettingKey, v: int)
    requires ShapedCore(r.core) && r.gate.active && -0x8000_0000 <= v <= 0x7fff_ffff
    ensures Sets(r, host, Name(Setting(t)), v, StoreSetting(r.core.conf.streaming, t, v))
  {
    SettingWord(t);
    KeyOfSetting(t);
    NumberStored(r, host, Name(Setting(t)), Setting(t), v);
    assert N([Num(v)], 0) == v;
  }

  lemma StatsPortName()
    ensures Name(Setting(StatsPort)) == "VTP_STATS_PORT"
  {
  }

  lemma StatsInstName()
    ensures Name(Setting(StatsInst)) == "VTP_STATS_INST"
  {
  }

  lemma SyncPktLenName()
    ensures Name(Setting(SyncPktLen)) == "VTP_SYNC_PKT_LEN"
  {
  }

  lemma NumConnectionsName()
    ensures Name(Setting(NumConnections)) == "VTP_NUM_CONNECTIONS"
  {
  }

  lemma NetModeName()
    ensures Name(Setting(NetMode)) == "VTP_NET_MODE"
  {
  }

  lemma EnableEjfatName()
    ensures Name(Setting(EnableEjfat)) == "VTP_ENABLE_EJFAT"
  {
  }

  lemma LocalPortName()
    ensures Name(Setting(LocalPort)) == "VTP_LOCAL_PORT"
  {
  }

  // ---------------------------------------------------------------- the streaming settings

  /** Each of the seven lines: a value in its range is taken, any other is ignored, and nothing else
      changes. */
  lemma StatsPortLine(r: Reader, host: string, v: int)
    requires ShapedCore(r.core) && r.gate.active && -0x8000_0000 <= v <= 0x7fff_ffff
    ensures var s := r.core.conf.streaming;
            Sets(r, host, "VTP_STATS_PORT", v, s.(statsPort := if 1 <= v <= 65535 then v else s.statsPort))
  {
    StatsPortName();
    SettingSets(r, host, StatsPort, v);
  }

  lemma StatsInstLine(r: Reader, host: string, v: int)
    requires ShapedCore(r.core) && r.gate.active && -0x8000_0000 <= v <= 0x7fff_ffff
    ensures var s := r.core.conf.streaming;
            Sets(r, host, "VTP_STATS_INST", v, s.(statsInst := if 0 <= v <= 3 then v else s.statsInst))
  {
    StatsInstName();
    SettingSets(r, host, StatsInst, v);
  }

  lemma SyncPktLenLine(r: Reader, host: string, v: int)
    requires ShapedCore(r.core) && r.gate.active && -0x8000_0000 <= v <= 0x7fff_ffff
    ensures var s := r.core.conf.streaming;
            Sets(r, host, "VTP_SYNC_PKT_LEN", v, s.(syncPktLen := if 1 <= v <= 1499 then v else s.syncPktLen))
  {
    SyncPktLenName();
    SettingSets(r, host, SyncPktLen, v);
  }

  lemma NumConnectionsLine(r: Reader, host: string, v: int)
    requires ShapedCore(r.core) && r.gate.active && -0x8000_0000 <= v <= 0x7fff_ffff
    ensures var s := r.core.conf.streaming;
            Sets(r, host, "VTP_NUM_CONNECTIONS", v, s.(numConnections := if 1 <= v <= 4 then v else s.numConnections))
  {
    NumConnectionsName();
    SettingSets(r, host, NumConnections, v);
  }

  lemma NetModeLine(r: Reader, host: string, v: int)
    requires ShapedCore(r.core) && r.gate.active && -0x8000_0000 <= v <= 0x7fff_ffff
    ensures var s := r.core.conf.streaming;
            Sets(r, host, "VTP_NET_MODE", v, s.(netMode := if 0 <= v <= 1 then v else s.netMode))
  {
    NetModeName();
    SettingSets(r, host, NetMode, v);
  }

  lemma EnableEjfatLine(r: Reader, host: string, v: int)
    requires ShapedCore(r.core) && r.gate.active && -0x8000_0000 <= v <= 0x7fff_ffff
    ensures var s := r.core.conf.streaming;
            Sets(r, host, "VTP_ENABLE_EJFAT", v, s.(enableEjfat := if 0 <= v <= 1 then v else s.enableEjfat))
  {
    EnableEjfatName();
    SettingSets(r, host, EnableEjfat, v);
  }

  lemma LocalPortLine(r: Reader, host: string, v: int)
    requires ShapedCore(r.core) && r.gate.active && -0x8000_0000 <= v <= 0x7fff_ffff
    ensures var s := r.core.conf.streaming;
            Sets(r, host, "VTP_LOCAL_PORT", v, s.(localPort := if 1 <= v <= 65535 then v else s.localPort))
  {
    LocalPortName();
    SettingSets(r, host, LocalPort, v);
  }


  /** A line that is read without an error and changes nothing. */
  ghost predicate Keeps(core: Core, host: string, line: string)
    requires ShapedCore(core)
  {
    forall g: Gate :: g.active ==>
      var (after, code) := ReadLine(Reader(core, g), host, line);
      code == 0 && after.gate.active && after.core == core
  }

  lemma {:induction false} AllKeep(r: Reader, host: string, lines: seq<string>)
    requires ShapedCore(r.core) && r.gate.active && forall j :: 0 <= j < |lines| ==> Keeps(r.core, host, lines[j])
    ensures ReadLines(r, host, lines).1 == 0 && ReadLines(r, host, lines).0.core == r.core
    decreases |lines|
  {
    if lines != [] {
      assert Keeps(r.core, host, lines[0]);
      var after := ReadLine(Reader(r.core, r.gate), host, lines[0]).0;
      AllKeep(after, host, lines[1..]);
    }
  }

  /** The settings the generator writes into every file. */
  const GENERATED: seq<(string, int)> :=
    [("VTP_STATS_PORT", 19531), ("VTP_STATS_INST", 0), ("VTP_SYNC_PKT_LEN", 28), ("VTP_NUM_CONNECTIONS", 1),
     ("VTP_NET_MODE", 1), ("VTP_ENABLE_EJFAT", 1), ("VTP_LOCAL_PORT", 10001)]

  lemma GeneratedKept(core: Core, host: string, c: Conf, j: nat)
    requires ShapedCore(core) && core.conf == ConfigInvariant.InitGlobals(c) && j < 7
    ensures Keeps(core, host, NumberLine(GENERATED[j].0, GENERATED[j].1))
  {
    forall g: Gate | g.active
      ensures Sets(Reader(core, g), host, GENERATED[j].0, GENERATED[j].1, core.conf.streaming)
    {
      var r := Reader(core, g);
      match j
      case 0 => StatsPortLine(r, host, 19531);
      case 1 => StatsInstLine(r, host, 0);
      case 2 => SyncPktLenLine(r, host, 28);
      case 3 => NumConnectionsLine(r, host, 1);
      case 4 => NetModeLine(r, host, 1);
      case 5 => EnableEjfatLine(r, host, 1);
      case 6 => LocalPortLine(r, host, 10001);
    }
  }

  /** They are the defaults: read after initialisation they change nothing. */
  lemma GeneratedAreDefaults(r: Reader, host: string, c: Conf)
    requires ShapedCore(r.core) && r.gate.active && r.core.conf == ConfigInvariant.InitGlobals(c)
    ensures var lines := seq(7, j requires 0 <= j < 7 => NumberLine(GENERATED[j].0, GENERATED[j].1));
            ReadLines(r, host, lines).1 == 0 && ReadLines(r, host, lines).0.core == r.core
  {
    var lines := seq(7, j requires 0 <= j < 7 => NumberLine(GENERATED[j].0, GENERATED[j].1));
    forall j | 0 <= j < 7 ensures Keeps(r.core, host, lines[j]) {
      GeneratedKept(r.core, host, c, j);
    }
    AllKeep(r, host, lines);
  }

  // ---------------------------------------------------------------- the trigger fields

  /** A line with any arguments its conversions take is stored as its key with them. */
  lemma ArgumentsStored(r: Reader, host: string, k: Key, args: seq<Arg>)
    requires ShapedCore(r.core) && r.gate.active && ConfigKeys.Printed(k) && AllFit(Kinds(k), args)
    ensures var (after, code) := ReadLine(r, host, ItemText(Item(Name(k), Kinds(k), args)));
            after.gate.active && (after.core, code) == StoreKey(r.core, k, args)
  {
    ScanPrinted(Kinds(k), args, "\n");
    NameBare(k);
    BareIsWord(Name(k));
    KeyOfName(k);
    WordLine(r, host, Name(k), PrintArgs(Kinds(k), args) + "\n");
  }

  /** A line read without an error that gives field `i` of `k` what `from` has there, and leaves every
      other field and the streaming settings alone. */
  ghost predicate JustSets(r: Reader, host: string, text: string, from: Conf, k: Key, i: nat)
    requires ShapedCore(r.core) && Shaped(from) && Field(k, i)
  {
    var (after, code) := ReadLine(r, host, text);
    && code == 0 && after.gate.active && SettingsKept(after.core.conf, r.core.conf)
    && forall k': Key, i': nat :: Field(k', i') ==>
         GetField(after.core.conf, k', i') == GetField(if (k', i') == (k, i) then from else r.core.conf, k', i')
  }

  lemma FieldSet(r: Reader, host: string, from: Conf, k: Key, i: nat)
    requires ShapedCore(r.core) && r.gate.active && Shaped(from) && FloatsPrintable(from) && Field(k, i)
    requires BitRight(r.core.trgBit, Value(k, i))
    ensures JustSets(r, host, LineText(from, Value(k, i)), from, k, i)
  {
    LineBack(r, host, from, Value(k, i));
    forall k': Key, i': nat | Field(k', i')
      ensures GetField(StoredLine(r.core.conf, from, Value(k, i)), k', i')
           == GetField(if (k', i') == (k, i) then from else r.core.conf, k', i')
    {
      StoredElsewhere(r.core.conf, from, Value(k, i), k', i');
    }
    PutFieldTop(r.core.conf, k, i, GetField(from, k, i));
  }

  /** Reading a trigger-bit line sets the fields written beside its keyword, for the current bit. */
  lemma TrgLineSets(r: Reader, host: string, from: Conf, i: nat, j: nat)
    requires ShapedCore(r.core) && r.gate.active && Shaped(from) && FloatsPrintable(from) && i < 32 && j < 9
    requires r.core.trgBit == i
    ensures |TrgItems(from.gt.trg[i], i)| == 9
    ensures |TrgItems(from.gt.trg[i], i)[j].kinds| == |TrgItems(from.gt.trg[i], i)[j].args|
    ensures var (after, code) := ReadLine(r, host, ItemText(TrgItems(from.gt.trg[i], i)[j]));
            && code == 0 && |after.core.conf.gt.trg| == 32
            && TrgItems(after.core.conf.gt.trg[i], i)[j] == TrgItems(from.gt.trg[i], i)[j]
  {
    var k := TrgLines(i)[j].k;
    TrgShows(from, i, j);
    TrgFields(from, i, j);
    FieldSet(r, host, from, k, i);
    var after := ReadLine(r, host, ItemText(TrgItems(from.gt.trg[i], i)[j])).0;
    TrgFields(after.core.conf, i, j);
    TrgWords(from.gt.trg[i], i, j);
    TrgWords(after.core.conf.gt.trg[i], i, j);
  }

  lemma PairLineSets(r: Reader, host: string, from: Conf, i: nat, j: nat)
    requires ShapedCore(r.core) && r.gate.active && Shaped(from) && FloatsPrintable(from) && i < 4 && j < 10
    ensures |PairItems(from.hps.pairs[i], i)| == 10
    ensures |PairItems(from.hps.pairs[i], i)[j].kinds| == |PairItems(from.hps.pairs[i], i)[j].args|
    ensures var (after, code) := ReadLine(r, host, ItemText(PairItems(from.hps.pairs[i], i)[j]));
            && code == 0 && |after.core.conf.hps.pairs| == 4
            && PairItems(after.core.conf.hps.pairs[i], i)[j] == PairItems(from.hps.pairs[i], i)[j]
  {
    var k := PairLines(i)[j].k;
    PairShows(from, i, j);
    PairFields(from, i, j);
    FieldSet(r, host, from, k, i);
    var after := ReadLine(r, host, ItemText(PairItems(from.hps.pairs[i], i)[j])).0;
    PairFields(after.core.conf, i, j);
    PairWords(from.hps.pairs[i], i, j);
    PairWords(after.core.conf.hps.pairs[i], i, j);
  }

  lemma SingleLineSets(r: Reader, host: string, from: Conf, i: nat, j: nat)
    requires ShapedCore(r.core) && r.gate.active && Shaped(from) && FloatsPrintable(from) && i < 4 && j < 7
    ensures |SingleItems(from.hps.singles[i], i)| == 7
    ensures |SingleItems(from.hps.singles[i], i)[j].kinds| == |SingleItems(from.hps.singles[i], i)[j].args|
    ensures var (after, code) := ReadLine(r, host, ItemText(SingleItems(from.hps.singles[i], i)[j]));
            && code == 0 && |after.core.conf.hps.singles| == 4
            && SingleItems(after.core.conf.hps.singles[i], i)[j] == SingleItems(from.hps.singles[i], i)[j]
  {
    var k := SingleLines(i)[j].k;
    SingleShows(from, i, j);
    SingleFields(from, i, j);
    FieldSet(r, host, from, k, i);
    var after := ReadLine(r, host, ItemText(SingleItems(from.hps.singles[i], i)[j])).0;
    SingleFields(after.core.conf, i, j);
    SingleWords(from.hps.singles[i], i, j);
    SingleWords(after.core.conf.hps.singles[i], i, j);
  }

  lemma MultLineSets(r: Reader, host: string, from: Conf, i: nat, j: nat)
    requires ShapedCore(r.core) && r.gate.active && Shaped(from) && FloatsPrintable(from) && i < 2 && j < 6
    ensures |MultItems(from.hps.mults[i], i)| == 6
    ensures |MultItems(from.hps.mults[i], i)[j].kinds| == |MultItems(from.hps.mults[i], i)[j].args|
    ensures var (after, code) := ReadLine(r, host, ItemText(MultItems(from.hps.mults[i], i)[j]));
            && code == 0 && |after.core.conf.hps.mults| == 2
            && MultItems(after.core.conf.hps.mults[i], i)[j] == MultItems(from.hps.mults[i], i)[j]
  {
    var k := MultLines(i)[j].k;
    MultShows(from, i, j);
    MultFields(from, i, j);
    FieldSet(r, host, from, k, i);
    var after := ReadLine(r, host, ItemText(MultItems(from.hps.mults[i], i)[j])).0;
    MultFields(after.core.conf, i, j);
    MultWords(from.hps.mults[i], i, j);
    MultWords(after.core.conf.hps.mults[i], i, j);
  }

  /** The calibration lines, except the second. */
  lemma CalibLineSets(r: Reader, host: string, from: Conf, j: nat)
    requires ShapedCore(r.core) && r.gate.active && Shaped(from) && FloatsPrintable(from) && 2 <= j < 14
    ensures |CalibItems(from.fthodoEmin, from.hps)| == 14
    ensures var x := CalibItems(from.fthodoEmin, from.hps)[j];
            && |x.kinds| == |x.args|
            && var (after, code) := ReadLine(r, host, ItemText(x));
               code == 0 && CalibItems(after.core.conf.fthodoEmin, after.core.conf.hps)[j] == x
  {
    var k := CalibLines()[j].k;
    CalibShows(from, j);
    CalibFields(from, j);
    FieldSet(r, host, from, k, 0);
    var after := ReadLine(r, host, ItemText(CalibItems(from.fthodoEmin, from.hps)[j])).0;
    CalibFields(after.core.conf, j);
    CalibNames(from.fthodoEmin, from.hps, j);
    CalibNames(after.core.conf.fthodoEmin, after.core.conf.hps, j);
  }

  /** A line shown by an item sets just its field: used for the lines that stand alone. */
  lemma ShownSets(r: Reader, host: string, from: Conf, k: Key, i: nat, item: Item)
    requires ShapedCore(r.core) && r.gate.active && Shaped(from) && FloatsPrintable(from) && Field(k, i)
    requires Shows(from, Value(k, i), item) && BitRight(r.core.trgBit, Value(k, i))
    ensures JustSets(r, host, ItemText(item), from, k, i)
  {
    FieldSet(r, host, from, k, i);
  }

  lemma HeadLineSets(r: Reader, host: string, from: Conf)
    requires ShapedCore(r.core) && r.gate.active && Shaped(from) && FloatsPrintable(from)
    ensures var (after, code) := ReadLine(r, host, ItemText(GtHead(from.gt)[0]));
            code == 0 && after.core.conf.gt.latency == from.gt.latency
    ensures var (after, code) := ReadLine(r, host, ItemText(GtHead(from.gt)[1]));
            code == 0 && after.core.conf.gt.width == from.gt.width
  {
    HeadShows(from);
    ShownSets(r, host, from, Gt(GtLatency), 0, GtHead(from.gt)[0]);
    ShownSets(r, host, from, Gt(GtWidth), 0, GtHead(from.gt)[1]);
    NumberField(ReadLine(r, host, ItemText(GtHead(from.gt)[0])).0.core.conf);
    NumberField(ReadLine(r, host, ItemText(GtHead(from.gt)[1])).0.core.conf);
    NumberField(from);
  }

  lemma NumberField(c: Conf)
    requires Shaped(c)
    ensures GetField(c, Gt(GtLatency), 0) == [Num(c.gt.latency)] && GetField(c, Gt(GtWidth), 0) == [Num(c.gt.width)]
  {
  }

  lemma SameRegion(c: Conf, d: Conf, i: nat)
    requires Shaped(c) && Shaped(d) && i < 7
    requires GetField(c, Fee(FeePrescale), i) == GetField(d, Fee(FeePrescale), i)
    ensures c.hps.fee.regions[i] == d.hps.fee.regions[i]
  {
  }

  lemma RegionLineSets(r: Reader, host: string, from: Conf, i: nat)
    requires ShapedCore(r.core) && r.gate.active && Shaped(from) && FloatsPrintable(from) && i < 7
    ensures var (after, code) := ReadLine(r, host, ItemText(RegionItem(from.hps.fee, i)));
            code == 0 && |after.core.conf.hps.fee.regions| == 7
            && after.core.conf.hps.fee.regions[i] == from.hps.fee.regions[i]
  {
    RegionShows(from, i);
    ShownSets(r, host, from, Fee(FeePrescale), i, RegionItem(from.hps.fee, i));
    SameRegion(ReadLine(r, host, ItemText(RegionItem(from.hps.fee, i))).0.core.conf, from, i);
  }

  /** The keyword of the FEE line `j`. */
  function FeeKeyAt(j: nat): FeeKey {
    match j
    case 0 => FeeEn
    case 1 => FeeEmin
    case 2 => FeeEmax
    case _ => FeeNmin
  }

  lemma FeeFields(c: Conf, j: nat)
    requires Shaped(c) && j < 4
    ensures FeeItems(c.hps.fee)[j].args == GetField(c, Fee(FeeKeyAt(j)), 0)
  {
  }

  lemma FeeWords(f: FeeTrig, g: FeeTrig, j: nat)
    requires j < 4
    ensures FeeItems(f)[j].word == FeeItems(g)[j].word && FeeItems(f)[j].kinds == FeeItems(g)[j].kinds
  {
  }

  lemma FeeLineSets(r: Reader, host: string, from: Conf, j: nat)
    requires ShapedCore(r.core) && r.gate.active && Shaped(from) && FloatsPrintable(from) && j < 4
    ensures |FeeItems(from.hps.fee)[j].kinds| == |FeeItems(from.hps.fee)[j].args|
    ensures var (after, code) := ReadLine(r, host, ItemText(FeeItems(from.hps.fee)[j]));
            code == 0 && FeeItems(after.core.conf.hps.fee)[j] == FeeItems(from.hps.fee)[j]
  {
    FeeShows(from, j);
    FeeKeys();
    var k := Fee(FeeKeyAt(j));
    assert FeeLines()[j] == Value(k, 0);
    ShownSets(r, host, from, k, 0, FeeItems(from.hps.fee)[j]);
    var c := ReadLine(r, host, ItemText(FeeItems(from.hps.fee)[j])).0.core.conf;
    FeeFields(c, j);
    FeeFields(from, j);
    FeeWords(c.hps.fee, from.hps.fee, j);
  }

  lemma FeeKeys()
    ensures |FeeLines()| >= 4
    ensures FeeLines()[0] == Value(Fee(FeeEn), 0) && FeeLines()[1] == Value(Fee(FeeEmin), 0)
    ensures FeeLines()[2] == Value(Fee(FeeEmax), 0) && FeeLines()[3] == Value(Fee(FeeNmin), 0)
  {
  }

  lemma SameTail(c: Conf, d: Conf, i: nat)
    requires Shaped(c) && Shaped(d) && i < 32
    ensures GetField(c, Hps(HpsLatency), 0) == GetField(d, Hps(HpsLatency), 0) ==>
              c.hps.solo.latency == d.hps.solo.latency
    ensures GetField(c, Hps(HpsPrescale), i) == GetField(d, Hps(HpsPrescale), i) ==>
              c.hps.prescales[i] == d.hps.prescales[i]
  {
  }

  lemma LatencyLineSets(r: Reader, host: string, from: Conf)
    requires ShapedCore(r.core) && r.gate.active && Shaped(from) && FloatsPrintable(from)
    ensures var (after, code) := ReadLine(r, host, ItemText(LatencyItem(from.hps)));
            code == 0 && after.core.conf.hps.solo.latency == from.hps.solo.latency
  {
    LatencyShows(from);
    ShownSets(r, host, from, Hps(HpsLatency), 0, LatencyItem(from.hps));
    SameTail(ReadLine(r, host, ItemText(LatencyItem(from.hps))).0.core.conf, from, 0);
  }

  lemma PrescaleLineSets(r: Reader, host: string, from: Conf, i: nat)
    requires ShapedCore(r.core) && r.gate.active && Shaped(from) && FloatsPrintable(from) && i < 32
    ensures var (after, code) := ReadLine(r, host, ItemText(PrescaleItem(from.hps, i)));
            code == 0 && |after.core.conf.hps.prescales| == 32
            && after.core.conf.hps.prescales[i] == from.hps.prescales[i]
  {
    PrescaleShows(from, i);
    ShownSets(r, host, from, Hps(HpsPrescale), i, PrescaleItem(from.hps, i));
    SameTail(ReadLine(r, host, ItemText(PrescaleItem(from.hps, i))).0.core.conf, from, i);
  }

  // ---------------------------------------------------------------- top and bottom

  lemma BareLine(r: Reader, host: string, h: HpsKey)
    requires ShapedCore(r.core) && r.gate.active && (h.EcalTop? || h.EcalBottom?)
    ensures var (after, code) := ReadLine(r, host, Name(Hps(h)) + "\n");
            after.gate.active && (after.core, code) == StoreKey(r.core, Hps(h), [])
  {
    var k := Hps(h);
    NameBare(k);
    BareIsWord(Name(k));
    KeyOfName(k);
    WordLine(r, host, Name(k), "\n");
    assert ScanArgs("\n", Kinds(k)) == [];
  }

  ghost predicate FlagSet(r: Reader, host: string, text: string, flag: Int)
    requires ShapedCore(r.core)
  {
    var (after, code) := ReadLine(r, host, text);
    code == 0 && after.core == r.core.(conf := r.core.conf.(hps := r.core.conf.hps.(topNBottom := flag)))
  }

  /** TOP sets the flag to 1, BOTTOM to 0, and the BOT that is printed leaves it alone. */
  lemma HalfLines(r: Reader, host: string)
    requires ShapedCore(r.core) && r.gate.active
    ensures FlagSet(r, host, "VTP_HPS_ECAL_TOP" + "\n", 1)
    ensures FlagSet(r, host, "VTP_HPS_ECAL_BOTTOM" + "\n", 0)
    ensures FlagSet(r, host, "VTP_HPS_ECAL_BOT" + "\n", r.core.conf.hps.topNBottom)
  {
    HalfNames();
    BareLine(r, host, EcalTop);
    BareLine(r, host, EcalBottom);
    BottomLine(r, host);
  }

  lemma HalfNames()
    ensures Name(Hps(EcalTop)) == "VTP_HPS_ECAL_TOP" && Name(Hps(EcalBottom)) == "VTP_HPS_ECAL_BOTTOM"
  {
  }

  // ---------------------------------------------------------------- lines in error

  /** How many instances a keyword of several has. */
  function Instances(k: Key): Option<int> {
    match k
    case Pair(_) => Some(4)
    case Single(_) => Some(4)
    case Mult(_) => Some(2)
    case Fee(f) => if f.FeePrescale? then Some(7) else None
    case Hps(h) => if h.HpsPrescale? then Some(32) else None
    case _ => None
  }

  /** An instance that does not exist ends the reading with -4, and nothing is stored. */
  lemma NoSuchInstance(r: Reader, host: string, k: Key, args: seq<Arg>)
    requires ShapedCore(r.core) && r.gate.active && Instances(k).Some? && AllFit(Kinds(k), args)
    requires args != [] && args[0].Num? && !(0 <= args[0].v < Instances(k).value)
    ensures var (after, code) := ReadLine(r, host, ItemText(Item(Name(k), Kinds(k), args)));
            after.core == r.core && code == -4
  {
    ArgumentsStored(r, host, k, args);
    assert Fits(Kinds(k)[0], args[0]);
    InstanceKinds(k);
  }

  lemma InstanceKinds(k: Key)
    requires Instances(k).Some?
    ensures |Kinds(k)| > 0 && Kinds(k)[0] == D
  {
  }

  /** The line that selects a trigger bit keeps what it says even when it is in error. */
  lemma TrgSelected(r: Reader, host: string, v: int)
    requires ShapedCore(r.core) && r.gate.active && -0x8000_0000 <= v <= 0x7fff_ffff
    ensures var (after, code) := ReadLine(r, host, NumberLine("VTP_GT_TRG", v));
            && after.core == r.core.(trgBit := v) && code == if 0 <= v < 32 then 0 else -4
  {
    var k := Gt(GtTrg);
    TrgName();
    NameBare(k);
    BareIsWord(Name(k));
    KeyOfName(k);
    NumberStored(r, host, Name(k), k, v);
  }

  /** A line of a trigger bit is in error while the current bit is none. */
  lemma NoCurrentBit(r: Reader, host: string, g: GtKey, args: seq<Arg>)
    requires ShapedCore(r.core) && r.gate.active && !(0 <= r.core.trgBit < 32)
    requires g != GtLatency && g != GtWidth && g != GtTrg && AllFit(Kinds(Gt(g)), args)
    ensures var (after, code) := ReadLine(r, host, ItemText(Item(Name(Gt(g)), Kinds(Gt(g)), args)));
            after.core == r.core && code == -4
  {
    ArgumentsStored(r, host, Gt(g), args);
  }

  /** A payload mask with an entry other than 0 and 1 ends the reading with -6 and leaves the payloads as
      they were. */
  lemma BadPayload(r: Reader, host: string, args: seq<Arg>)
    requires ShapedCore(r.core) && r.gate.active && AllFit(Kinds(PayloadEn), args)
    requires exists j :: 0 <= j < 16 && args[j] != Num(0) && args[j] != Num(1)
    ensures var (after, code) := ReadLine(r, host, ItemText(Item(Name(PayloadEn), Kinds(PayloadEn), args)));
            after.core.conf == r.core.conf && code == -6
  {
    ArgumentsStored(r, host, PayloadEn, args);
    var j :| 0 <= j < 16 && args[j] != Num(0) && args[j] != Num(1);
    var msk := Overlay(r.core.msk, args);
    assert Fits(Kinds(PayloadEn)[j], args[j]);
    assert msk[j] == args[j].v;
    assert !MaskBits(msk, |msk|);
  }

  // ---------------------------------------------------------------- the other keywords

  /** The keywords that are read but not printed, other than the settings. */
  predicate Rest(k: Key) {
    !ConfigKeys.Printed(k) && !k.Setting?
  }

  /** The fifth letter and the length tell them apart. */
  function Signature(k: Key): (char, nat)
    requires Rest(k)
  {
    match k
    case FiberEn => ('F', 12)
    case SlotEn => ('S', 21)
    case ComptonMask => ('C', 24)
    case GtTrgbit => ('G', 13)
    case GtTrgbit2 => ('G', 14)
    case Checked(c) =>
      match c
      case DcSegthr => ('D', 13)
      case StreamingEb => ('S', 13)
      case ComptonFadcThreshold => ('C', 26)
      case ComptonEplaneMultMin => ('C', 27)
      case ComptonEplaneMask => ('C', 23)
      case ComptonPrescale => ('C', 20)
      case ComptonDelay => ('C', 17)
  }

  lemma CheckedSigned(c: CheckedKey)
    ensures var s := CheckedSuffix(c); s != "" && (s[0], |s| + 4) == Signature(Checked(c))
  {
  }

  lemma Signed(k: Key)
    requires Rest(k)
    ensures |Name(k)| > 4 && (Name(k)[4], |Name(k)|) == Signature(k)
  {
    if k.Checked? {
      CheckedSigned(k.c);
      assert Name(k)[4] == CheckedSuffix(k.c)[0];
    }
  }

  lemma NotTrgbit(g: GtKey)
    ensures GtSuffix(g) != "TRGBIT" && GtSuffix(g) != "TRGBIT2"
  {
  }

  lemma GtTails(g: GtKey)
    ensures Name(Gt(g)) != "VTP_GT_TRGBIT" && Name(Gt(g)) != "VTP_GT_TRGBIT2"
  {
    NotTrgbit(g);
    assert Name(Gt(g))[7..] == GtSuffix(g);
    assert "VTP_GT_TRGBIT"[7..] == "TRGBIT" && "VTP_GT_TRGBIT2"[7..] == "TRGBIT2";
  }

  lemma GtNotRest(x: Key, g: GtKey)
    requires Rest(x)
    ensures Name(Gt(g)) != Name(x)
  {
    Signed(x);
    GtTails(g);
    GroupLetters(Gt(g));
  }

  lemma SettingNotRest(x: Key, t: SettingKey)
    requires Rest(x)
    ensures Name(Setting(t)) != Name(x)
  {
    Signed(x);
    SettingLetters(t);
    SettingLengths(t);
    assert Name(Setting(t))[4] == SettingSuffix(t)[0];
  }

  lemma PrintedNotRest(x: Key, k: Key)
    requires Rest(x) && ConfigKeys.Printed(k)
    ensures Name(k) != Name(x)
  {
    Signed(x);
    GroupLetters(k);
    assert |Name(FthodoEmin)| == 15;
    if k.Gt? {
      GtNotRest(x, k.g);
    }
  }

  lemma RestNamed(x: Key, k: Key)
    requires Rest(x) && Name(k) == Name(x)
    ensures k == x
  {
    if Rest(k) {
      Signed(x);
      Signed(k);
    } else if k.Setting? {
      SettingNotRest(x, k.t);
    } else {
      PrintedNotRest(x, k);
    }
  }

  lemma SettingLengths(t: SettingKey)
    ensures SettingSuffix(t)[0] == 'S' ==> 10 <= |SettingSuffix(t)| <= 12
  {
  }

  lemma InRest(k: Key)
    requires Rest(k)
    ensures k in OTHER_KEYS
  {
    match k
    case FiberEn => assert OTHER_KEYS[7] == k;
    case SlotEn => assert OTHER_KEYS[8] == k;
    case ComptonMask => assert OTHER_KEYS[9] == k;
    case GtTrgbit => assert OTHER_KEYS[10] == k;
    case GtTrgbit2 => assert OTHER_KEYS[11] == k;
    case Checked(c) =>
      match c
      case DcSegthr => assert OTHER_KEYS[12] == k;
      case StreamingEb => assert OTHER_KEYS[13] == k;
      case ComptonFadcThreshold => assert OTHER_KEYS[14] == k;
      case ComptonEplaneMultMin => assert OTHER_KEYS[15] == k;
      case ComptonEplaneMask => assert OTHER_KEYS[16] == k;
      case ComptonPrescale => assert OTHER_KEYS[17] == k;
      case ComptonDelay => assert OTHER_KEYS[18] == k;
  }

  lemma KeyOfRest(x: Key)
    requires Rest(x)
    ensures KeyOf(Name(x)) == Some(x)
  {
    var keys, none := PRINTED_KEYS + OTHER_KEYS, [];
    InRest(x);
    assert x in keys;
    forall j | 0 <= j < |keys| && Name(keys[j]) == Name(x) ensures keys[j] == x {
      RestNamed(x, keys[j]);
    }
    FindFirst(Name(x), keys, none, x);
    assert keys + none == keys;
  }

  lemma CheckedBareShort(c: CheckedKey)
    requires c.DcSegthr? || c.StreamingEb? || c.ComptonDelay? || c.ComptonPrescale?
    ensures Bare(CheckedSuffix(c))
  {
  }

  lemma CheckedBareLong(c: CheckedKey)
    requires c.ComptonFadcThreshold? || c.ComptonEplaneMultMin? || c.ComptonEplaneMask?
    ensures Bare(CheckedSuffix(c))
  {
  }

  lemma RestBare(k: Key)
    requires Rest(k) && !k.Checked?
    ensures Bare(Name(k))
  {
  }

  lemma RestWord(k: Key)
    requires Rest(k)
    ensures Name(k) != "" && AllIn(Name(k), NonSpace) && Name(k) != CRATE
  {
    Signed(k);
    if k.Checked? {
      if k.c.DcSegthr? || k.c.StreamingEb? || k.c.ComptonDelay? || k.c.ComptonPrescale? {
        CheckedBareShort(k.c);
      } else {
        CheckedBareLong(k.c);
      }
      assert Bare("VTP_");
      BareJoin("VTP_", CheckedSuffix(k.c));
    } else {
      RestBare(k);
    }
    BareIsWord(Name(k));
  }

  lemma RestStored(r: Reader, host: string, k: Key, args: seq<Arg>)
    requires ShapedCore(r.core) && r.gate.active && Rest(k) && AllFit(Kinds(k), args)
    ensures var (after, code) := ReadLine(r, host, ItemText(Item(Name(k), Kinds(k), args)));
            after.gate.active && (after.core, code) == StoreKey(r.core, k, args)
  {
    ScanPrinted(Kinds(k), args, "\n");
    RestWord(k);
    KeyOfRest(k);
    WordLine(r, host, Name(k), PrintArgs(Kinds(k), args) + "\n");
  }

  /** Ints as arguments, as a line prints them. */
  function IntLine(word: string, a: seq<int>): string {
    ItemText(Item(word, Ints(|a|), GeneratedConfig.Nums(a)))
  }

  ghost predicate AllInts(a: seq<int>) {
    forall j :: 0 <= j < |a| ==> -0x8000_0000 <= a[j] <= 0x7fff_ffff
  }

  lemma IntsStored(r: Reader, host: string, k: Key, a: seq<int>)
    requires ShapedCore(r.core) && r.gate.active && Rest(k) && AllInts(a) && Kinds(k) == Ints(|a|)
    ensures var (after, code) := ReadLine(r, host, IntLine(Name(k), a));
            after.gate.active && (after.core, code) == StoreKey(r.core, k, GeneratedConfig.Nums(a))
  {
    RestStored(r, host, k, GeneratedConfig.Nums(a));
  }

  /** The line selects an instance below `count`, or ends the reading with `error`; nothing is stored. */
  ghost predicate Limits(r: Reader, host: string, word: string, v: int, count: int, error: int)
    requires ShapedCore(r.core)
  {
    var (after, code) := ReadLine(r, host, NumberLine(word, v));
    after.core == r.core && code == if 0 <= v < count then 0 else error
  }

  lemma CheckedLimits(r: Reader, host: string, c: CheckedKey, v: int)
    requires ShapedCore(r.core) && r.gate.active && -0x8000_0000 <= v <= 0x7fff_ffff
    ensures Limits(r, host, Name(Checked(c)), v, CheckedRange(c).0, CheckedRange(c).1)
  {
    RestWord(Checked(c));
    KeyOfRest(Checked(c));
    NumberStored(r, host, Name(Checked(c)), Checked(c), v);
    assert N([Num(v)], 0) == v;
  }

  lemma DcSegthrName()
    ensures Name(Checked(DcSegthr)) == "VTP_DC_SEGTHR"
  {
  }

  lemma DcSegthrLimits(r: Reader, host: string, v: int)
    requires ShapedCore(r.core) && r.gate.active && -0x8000_0000 <= v <= 0x7fff_ffff
    ensures Limits(r, host, "VTP_DC_SEGTHR", v, 3, -1)
  {
    DcSegthrName();
    CheckedLimits(r, host, DcSegthr, v);
  }

  lemma StreamingEbName()
    ensures Name(Checked(StreamingEb)) == "VTP_STREAMING"
  {
  }

  lemma StreamingEbLimits(r: Reader, host: string, v: int)
    requires ShapedCore(r.core) && r.gate.active && -0x8000_0000 <= v <= 0x7fff_ffff
    ensures Limits(r, host, "VTP_STREAMING", v, 2, -4)
  {
    StreamingEbName();
    CheckedLimits(r, host, StreamingEb, v);
  }

  lemma ComptonFadcThresholdName()
    ensures Name(Checked(ComptonFadcThreshold)) == "VTP_COMPTON_FADC_THRESHOLD"
  {
  }

  lemma ComptonFadcThresholdLimits(r: Reader, host: string, v: int)
    requires ShapedCore(r.core) && r.gate.active && -0x8000_0000 <= v <= 0x7fff_ffff
    ensures Limits(r, host, "VTP_COMPTON_FADC_THRESHOLD", v, 5, -4)
  {
    ComptonFadcThresholdName();
    CheckedLimits(r, host, ComptonFadcThreshold, v);
  }

  lemma MultMinName()
    ensures Name(Checked(ComptonEplaneMultMin)) == "VTP_COMPTON_EPLANE_MULT_MIN"
  {
  }

  lemma ComptonEplaneMultMinLimits(r: Reader, host: string, v: int)
    requires ShapedCore(r.core) && r.gate.active && -0x8000_0000 <= v <= 0x7fff_ffff
    ensures Limits(r, host, "VTP_COMPTON_EPLANE_MULT_MIN", v, 5, -4)
  {
    MultMinName();
    CheckedLimits(r, host, ComptonEplaneMultMin, v);
  }

  lemma ComptonEplaneMaskName()
    ensures Name(Checked(ComptonEplaneMask)) == "VTP_COMPTON_EPLANE_MASK"
  {
  }

  lemma ComptonEplaneMaskLimits(r: Reader, host: string, v: int)
    requires ShapedCore(r.core) && r.gate.active && -0x8000_0000 <= v <= 0x7fff_ffff
    ensures Limits(r, host, "VTP_COMPTON_EPLANE_MASK", v, 5, -4)
  {
    ComptonEplaneMaskName();
    CheckedLimits(r, host, ComptonEplaneMask, v);
  }

  lemma ComptonPrescaleName()
    ensures Name(Checked(ComptonPrescale)) == "VTP_COMPTON_PRESCALE"
  {
  }

  lemma ComptonPrescaleLimits(r: Reader, host: string, v: int)
    requires ShapedCore(r.core) && r.gate.active && -0x8000_0000 <= v <= 0x7fff_ffff
    ensures Limits(r, host, "VTP_COMPTON_PRESCALE", v, 32, -4)
  {
    ComptonPrescaleName();
    CheckedLimits(r, host, ComptonPrescale, v);
  }

  lemma ComptonDelayName()
    ensures Name(Checked(ComptonDelay)) == "VTP_COMPTON_DELAY"
  {
  }

  lemma ComptonDelayLimits(r: Reader, host: string, v: int)
    requires ShapedCore(r.core) && r.gate.active && -0x8000_0000 <= v <= 0x7fff_ffff
    ensures Limits(r, host, "VTP_COMPTON_DELAY", v, 32, -4)
  {
    ComptonDelayName();
    CheckedLimits(r, host, ComptonDelay, v);
  }

  /** Every entry is 0 or 1. */
  predicate Flags(a: seq<int>) {
    forall j :: 0 <= j < |a| ==> a[j] == 0 || a[j] == 1
  }

  lemma FiberStored(c: Core, a: seq<int>)
    requires ShapedCore(c) && |a| == 4 && AllInts(a)
    ensures var (after, code) := StoreKey(c, FiberEn, GeneratedConfig.Nums(a));
            if Flags(a) then code == 0 && after.conf == c.conf.(fiberEn := a[0] + 2 * a[1] + 4 * a[2] + 8 * a[3])
            else code == -6 && after.conf == c.conf
  {
    var msk := Overlay(c.msk, GeneratedConfig.Nums(a));
    assert forall j :: 0 <= j < 4 ==> msk[j] == a[j];
    if Flags(a) {
      MaskIsWeight(msk, 4);
      FourWeights(msk);
    } else {
      assert !MaskBits(msk, 4);
    }
  }

  /** The fibers, bit 0 first; an entry other than 0 and 1 ends the reading with -6. */
  lemma FiberLine(r: Reader, host: string, a: seq<int>)
    requires ShapedCore(r.core) && r.gate.active && |a| == 4 && AllInts(a)
    ensures var (after, code) := ReadLine(r, host, IntLine("VTP_FIBER_EN", a));
            if Flags(a) then
              code == 0 && after.core.conf == r.core.conf.(fiberEn := a[0] + 2 * a[1] + 4 * a[2] + 8 * a[3])
            else code == -6 && after.core.conf == r.core.conf
  {
    IntsStored(r, host, FiberEn, a);
    FiberStored(r.core, a);
  }

  lemma FourWeights(msk: seq<int>)
    requires |msk| >= 4
    ensures Weight(msk, 4) == msk[0] + 2 * msk[1] + 4 * msk[2] + 8 * msk[3]
  {
    assert Weight(msk, 1) == msk[0] && Weight(msk, 2) == Weight(msk, 1) + msk[1] * 2;
    assert Weight(msk, 3) == Weight(msk, 2) + msk[2] * 4 && Weight(msk, 4) == Weight(msk, 3) + msk[3] * 8;
  }

  lemma SlotStored(c: Core, a: seq<int>)
    requires ShapedCore(c) && |a| == 8 && AllInts(a)
    ensures StoreKey(c, SlotEn, GeneratedConfig.Nums(a)).0.conf == c.conf
    ensures StoreKey(c, SlotEn, GeneratedConfig.Nums(a)).1 == if Flags(a) then 0 else -6
  {
    var msk := Overlay(c.msk, GeneratedConfig.Nums(a));
    assert forall j :: 0 <= j < 8 ==> msk[j] == a[j];
    assert Flags(a) <==> MaskBits(msk, 8);
  }

  lemma SlotLine(r: Reader, host: string, a: seq<int>)
    requires ShapedCore(r.core) && r.gate.active && |a| == 8 && AllInts(a)
    ensures var (after, code) := ReadLine(r, host, IntLine("VTP_STREAMING_SLOT_EN", a));
            after.core.conf == r.core.conf && code == if Flags(a) then 0 else -6
  {
    IntsStored(r, host, SlotEn, a);
    SlotStored(r.core, a);
  }

  /** An instance and sixteen entries. */
  lemma ComptonLine(r: Reader, host: string, a: seq<int>)
    requires ShapedCore(r.core) && r.gate.active && |a| == 17 && AllInts(a)
    ensures var (after, code) := ReadLine(r, host, IntLine("VTP_COMPTON_FADC_EN_MASK", a));
            after.core.conf == r.core.conf && code == if !(0 <= a[0] < 5) then -4 else if Flags(a[1..]) then 0 else -6
  {
    IntsStored(r, host, ComptonMask, a);
    var args := GeneratedConfig.Nums(a);
    var msk := Overlay(r.core.msk, args[1..]);
    assert forall j :: 0 <= j < 16 ==> msk[j] == a[1..][j];
    assert Flags(a[1..]) <==> MaskBits(msk, 16);
    assert N(args, 0) == a[0];
  }

  // ---------------------------------------------------------------- a whole trigger bit on one line

  /** The trigger bits with bit `i` replaced. */
  function WithBit(c: Conf, i: nat, t: TrgBit): Conf
    requires Shaped(c) && i < 32
  {
    c.(gt := c.gt.(trg := c.gt.trg[i := t]))
  }

  /** Two's complement. */
  function Unsigned(v: int): int {
    if v < 0 then v + 0x1_0000_0000 else v
  }

  /** The long form sets the two masks, sectors and minima, the width, the central mask, the delay and the
      prescale, and leaves the pulser. */
  lemma Trgbit2Line(r: Reader, host: string, a: seq<int>)
    requires ShapedCore(r.core) && r.gate.active && |a| == 11 && AllInts(a)
    ensures var (after, code) := ReadLine(r, host, IntLine("VTP_GT_TRGBIT2", a));
            if 0 <= a[0] < 32 then
              code == 0 && after.core == r.core.(conf := WithBit(r.core.conf, a[0],
                TrgBit(Unsigned(a[1]), Unsigned(a[4]), Unsigned(a[2]), Unsigned(a[5]), a[3], a[6], a[7],
                       Unsigned(a[8]), a[9], r.core.conf.gt.trg[a[0]].pulserFreq, a[10])))
            else code == -4 && after.core == r.core
  {
    IntsStored(r, host, GtTrgbit2, a);
    AllNumbers(a);
  }

  lemma AllNumbers(a: seq<int>)
    requires AllInts(a)
    ensures forall j :: 0 <= j < |a| ==> N(GeneratedConfig.Nums(a), j) == a[j] && AsMask(a[j]) == Unsigned(a[j])
  {
  }

  /** The short form has one of each and clears the second ones. */
  lemma TrgbitLine(r: Reader, host: string, a: seq<int>)
    requires ShapedCore(r.core) && r.gate.active && |a| == 8 && AllInts(a)
    ensures var (after, code) := ReadLine(r, host, IntLine("VTP_GT_TRGBIT", a));
            if 0 <= a[0] < 32 then
              code == 0 && after.core == r.core.(conf := WithBit(r.core.conf, a[0],
                TrgBit(Unsigned(a[1]), 0, Unsigned(a[2]), 0, a[3], 0, a[4],
                       Unsigned(a[5]), a[6], r.core.conf.gt.trg[a[0]].pulserFreq, a[7])))
            else code == -4 && after.core == r.core
  {
    IntsStored(r, host, GtTrgbit, a);
    AllNumbers(a);
  }

  /** What initialisation puts into the trigger sections, as it would be printed. */
  lemma InitialTriggers(c: Conf, i: nat)
    requires i < 32
    ensures var d := ConfigInvariant.InitGlobals(c);
            && GtHead(d.gt) == [Item("VTP_GT_LATENCY", [D], [Num(1000)]), Item("VTP_GT_WIDTH", [D], [Num(100)])]
            && d.gt.trg[i] == TrgBit(0, 0, 0, 0, 0, 0, 0, 0, 0, "0.000000", 1)
            && d.hps.prescales[i] == 1 && d.hps.topNBottom == 0
            && (i < 4 ==> d.hps.pairs[i].emin == 1 && d.hps.pairs[i].emax == 8191 && d.hps.pairs[i].nmin == 1
                          && d.hps.pairs[i].esumMax == 16383 && d.hps.pairs[i].ediffMax == 8191
                          && d.hps.singles[i].emax == 8191 && d.hps.singles[i].xmin == -31)
            && (i < 7 ==> d.hps.fee.regions[i] == FeeRegion(-31, -31, 0))
  {
  }
}
