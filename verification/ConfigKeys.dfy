/** The keywords of the configuration file that the model knows, and the arguments they take. */
module ConfigKeys {
  import opened Options
  import opened Text

  datatype GtKey =
    | GtLatency | GtWidth | GtTrg | GtStriggerMask | GtCtriggerMask | GtSectorMask
    | GtSectorMultMin | GtSectorWidth | GtPulserFreq | GtDelay | GtPrescale

  datatype PairKey =
    | PairEmin | PairEmax | PairNmin | PairTimeCoincidence | PairSummaxMin | PairDiffmax
    | PairEnergydist | PairCoplanarity | PairEn | PairHodo

  datatype SingleKey =
    | SingleEmin | SingleEmax | SingleNmin | SingleXmin | SinglePde | SingleHodo | SingleEn

  datatype MultKey = MultEmin | MultEmax | MultNmin | MultMin | MultDt | MultEn

  datatype FeeKey = FeeEn | FeeEmin | FeeEmax | FeeNmin | FeePrescale

  datatype HpsKey =
    | EcalTop | EcalBottom | EcalHitDt | EcalSeedThr | FadchitThr | HodoThr | HodoDt
    | CalibTopEn | CalibBotEn | CosmicDt | CosmicTopEn | CosmicBotEn | PulserEn | PulserFreq
    | HpsLatency | HpsPrescale

  datatype SettingKey =
    | StatsPort | StatsInst | SyncPktLen | NumConnections | NetMode | EnableEjfat | LocalPort

  /** Keywords outside the model except for the range check on their first argument. */
  datatype CheckedKey =
    | DcSegthr | StreamingEb | ComptonFadcThreshold | ComptonEplaneMultMin
    | ComptonEplaneMask | ComptonPrescale | ComptonDelay

  datatype Key =
    | Gt(g: GtKey)
    | Pair(p: PairKey)
    | Single(s: SingleKey)
    | Mult(m: MultKey)
    | Fee(f: FeeKey)
    | Hps(h: HpsKey)
    | FthodoEmin
    | PayloadEn
    | Setting(t: SettingKey)
    | FiberEn
    | SlotEn
    | ComptonMask
    | GtTrgbit
    | GtTrgbit2
    | Checked(c: CheckedKey)

  const CRATE: string := "VTP_CRATE"

  function GtSuffix(g: GtKey): string {
    match g
    case GtLatency => "LATENCY"
    case GtWidth => "WIDTH"
    case GtTrg => "TRG"
    case GtStriggerMask => "TRG_SSP_STRIGGER_MASK"
    case GtCtriggerMask => "TRG_SSP_CTRIGGER_MASK"
    case GtSectorMask => "TRG_SSP_SECTOR_MASK"
    case GtSectorMultMin => "TRG_SSP_SECTOR_MULT_MIN"
    case GtSectorWidth => "TRG_SSP_SECTOR_WIDTH"
    case GtPulserFreq => "TRG_PULSER_FREQ"
    case GtDelay => "TRG_DELAY"
    case GtPrescale => "TRG_PRESCALE"
  }

  function PairSuffix(p: PairKey): string {
    match p
    case PairEmin => "EMIN"
    case PairEmax => "EMAX"
    case PairNmin => "NMIN"
    case PairTimeCoincidence => "TIMECOINCIDENCE"
    case PairSummaxMin => "SUMMAX_MIN"
    case PairDiffmax => "DIFFMAX"
    case PairEnergydist => "ENERGYDIST"
    case PairCoplanarity => "COPLANARITY"
    case PairEn => "EN"
    case PairHodo => "HODO"
  }

  function SingleSuffix(s: SingleKey): string {
    match s
    case SingleEmin => "EMIN"
    case SingleEmax => "EMAX"
    case SingleNmin => "NMIN"
    case SingleXmin => "XMIN"
    case SinglePde => "PDE"
    case SingleHodo => "HODO"
    case SingleEn => "EN"
  }

  function MultSuffix(m: MultKey): string {
    match m
    case MultEmin => "EMIN"
    case MultEmax => "EMAX"
    case MultNmin => "NMIN"
    case MultMin => "MIN"
    case MultDt => "DT"
    case MultEn => "EN"
  }

  function FeeSuffix(f: FeeKey): string {
    match f
    case FeeEn => "EN"
    case FeeEmin => "EMIN"
    case FeeEmax => "EMAX"
    case FeeNmin => "NMIN"
    case FeePrescale => "PRESCALE"
  }

  function HpsSuffix(h: HpsKey): string {
    match h
    case EcalTop => "ECAL_TOP"
    case EcalBottom => "ECAL_BOTTOM"
    case EcalHitDt => "ECAL_CLUSTER_HIT_DT"
    case EcalSeedThr => "ECAL_CLUSTER_SEED_THR"
    case FadchitThr => "HODOSCOPE_FADCHIT_THR"
    case HodoThr => "HODOSCOPE_HODO_THR"
    case HodoDt => "HODOSCOPE_HODO_DT"
    case CalibTopEn => "CALIB_HODOSCOPE_TOP_EN"
    case CalibBotEn => "CALIB_HODOSCOPE_BOT_EN"
    case CosmicDt => "CALIB_COSMIC_DT"
    case CosmicTopEn => "CALIB_COSMIC_TOP_EN"
    case CosmicBotEn => "CALIB_COSMIC_BOT_EN"
    case PulserEn => "CALIB_PULSER_EN"
    case PulserFreq => "CALIB_PULSER_FREQ"
    case HpsLatency => "LATENCY"
    case HpsPrescale => "PRESCALE"
  }

  function SettingSuffix(t: SettingKey): string {
    match t
    case StatsPort => "STATS_PORT"
    case StatsInst => "STATS_INST"
    case SyncPktLen => "SYNC_PKT_LEN"
    case NumConnections => "NUM_CONNECTIONS"
    case NetMode => "NET_MODE"
    case EnableEjfat => "ENABLE_EJFAT"
    case LocalPort => "LOCAL_PORT"
  }

  function CheckedSuffix(c: CheckedKey): string {
    match c
    case DcSegthr => "DC_SEGTHR"
    case StreamingEb => "STREAMING"
    case ComptonFadcThreshold => "COMPTON_FADC_THRESHOLD"
    case ComptonEplaneMultMin => "COMPTON_EPLANE_MULT_MIN"
    case ComptonEplaneMask => "COMPTON_EPLANE_MASK"
    case ComptonPrescale => "COMPTON_PRESCALE"
    case ComptonDelay => "COMPTON_DELAY"
  }

  /** The keyword as it stands in the file. */
  function Name(k: Key): string {
    match k
    case Gt(g) => "VTP_GT_" + GtSuffix(g)
    case Pair(p) => "VTP_HPS_PAIR_" + PairSuffix(p)
    case Single(s) => "VTP_HPS_SINGLE_" + SingleSuffix(s)
    case Mult(m) => "VTP_HPS_MULT_" + MultSuffix(m)
    case Fee(f) => "VTP_HPS_FEE_" + FeeSuffix(f)
    case Hps(h) => "VTP_HPS_" + HpsSuffix(h)
    case FthodoEmin => "VTP_FTHODO_EMIN"
    case PayloadEn => "VTP_PAYLOAD_EN"
    case Setting(t) => "VTP_" + SettingSuffix(t)
    case FiberEn => "VTP_FIBER_EN"
    case SlotEn => "VTP_STREAMING_SLOT_EN"
    case ComptonMask => "VTP_COMPTON_FADC_EN_MASK"
    case GtTrgbit => "VTP_GT_TRGBIT"
    case GtTrgbit2 => "VTP_GT_TRGBIT2"
    case Checked(c) => "VTP_" + CheckedSuffix(c)
  }

  /** The conversions of the keyword's sscanf call. */
  function Kinds(k: Key): (kinds: seq<Kind>) {
    match k
    case Gt(g) =>
      (match g
       case GtStriggerMask => [X, X]
       case GtSectorMask => [X, X]
       case GtCtriggerMask => [X]
       case GtSectorMultMin => [D, D]
       case GtPulserFreq => [F]
       case _ => [D])
    case Pair(p) =>
      (match p
       case PairSummaxMin => [D, D, D, D]
       case PairDiffmax => [D, D, D]
       case PairEnergydist => [D, F, D, D]
       case PairCoplanarity => [D, D, D]
       case PairHodo => [D, D, D, D, D]
       case _ => [D, D])
    case Single(s) =>
      (match s
       case SinglePde => [D, F, F, F, F, D]
       case SingleHodo => [D, D, D, D, D]
       case SingleEn => [D, D]
       case _ => [D, D, D])
    case Mult(m) => if m.MultMin? then [D, D, D, D] else [D, D]
    case Fee(f) => if f.FeePrescale? then [D, D, D, D] else [D]
    case Hps(h) =>
      (match h
       case EcalTop => []
       case EcalBottom => []
       case PulserFreq => [F]
       case HpsPrescale => [D, D]
       case _ => [D])
    case PayloadEn => Ints(16)
    case FiberEn => Ints(4)
    case SlotEn => Ints(8)
    case ComptonMask => Ints(17)
    case GtTrgbit => Ints(8)
    case GtTrgbit2 => Ints(11)
    case _ => [D]
  }

  function Ints(n: nat): (kinds: seq<Kind>)
    ensures |kinds| == n
  {
    seq(n, _ => D)
  }

  // ---------------------------------------------------------------- looking a keyword up

  const GT_KEYS: seq<Key> :=
    [Gt(GtLatency), Gt(GtWidth), Gt(GtTrg), Gt(GtStriggerMask), Gt(GtCtriggerMask), Gt(GtSectorMask),
     Gt(GtSectorMultMin), Gt(GtSectorWidth), Gt(GtPulserFreq), Gt(GtDelay), Gt(GtPrescale)]
  const PAIR_KEYS: seq<Key> :=
    [Pair(PairEmin), Pair(PairEmax), Pair(PairNmin), Pair(PairTimeCoincidence), Pair(PairSummaxMin),
     Pair(PairDiffmax), Pair(PairEnergydist), Pair(PairCoplanarity), Pair(PairEn), Pair(PairHodo)]
  const SINGLE_KEYS: seq<Key> :=
    [Single(SingleEmin), Single(SingleEmax), Single(SingleNmin), Single(SingleXmin), Single(SinglePde),
     Single(SingleHodo), Single(SingleEn)]
  const MULT_KEYS: seq<Key> :=
    [Mult(MultEmin), Mult(MultEmax), Mult(MultNmin), Mult(MultMin), Mult(MultDt), Mult(MultEn)]
  const FEE_KEYS: seq<Key> := [Fee(FeeEn), Fee(FeeEmin), Fee(FeeEmax), Fee(FeeNmin), Fee(FeePrescale)]
  const HPS_KEYS: seq<Key> :=
    [Hps(EcalTop), Hps(EcalBottom), Hps(EcalHitDt), Hps(EcalSeedThr), Hps(FadchitThr), Hps(HodoThr),
     Hps(HodoDt), Hps(CalibTopEn), Hps(CalibBotEn), Hps(CosmicDt), Hps(CosmicTopEn), Hps(CosmicBotEn),
     Hps(PulserEn), Hps(PulserFreq), Hps(HpsLatency), Hps(HpsPrescale)]
  const OTHER_KEYS: seq<Key> :=
    [Setting(StatsPort), Setting(StatsInst), Setting(SyncPktLen), Setting(NumConnections), Setting(NetMode),
     Setting(EnableEjfat), Setting(LocalPort), FiberEn, SlotEn, ComptonMask, GtTrgbit, GtTrgbit2,
     Checked(DcSegthr), Checked(StreamingEb), Checked(ComptonFadcThreshold),
     Checked(ComptonEplaneMultMin), Checked(ComptonEplaneMask), Checked(ComptonPrescale), Checked(ComptonDelay)]

  const PRINTED_KEYS: seq<Key> :=
    GT_KEYS + PAIR_KEYS + SINGLE_KEYS + MULT_KEYS + FEE_KEYS + HPS_KEYS + [FthodoEmin, PayloadEn]

  /** The chain of string comparisons. */
  function Find(w: string, keys: seq<Key>): Option<Key> {
    if keys == [] then None
    else if Name(keys[0]) == w then Some(keys[0])
    else Find(w, keys[1..])
  }

  function KeyOf(w: string): Option<Key> {
    Find(w, PRINTED_KEYS + OTHER_KEYS)
  }

  /** The keywords the printer writes as well. */
  predicate Printed(k: Key) {
    !k.Setting? && !k.FiberEn? && !k.SlotEn? && !k.ComptonMask? && !k.GtTrgbit? && !k.GtTrgbit2?
    && !k.Checked?
  }

  lemma {:induction false} FindFirst(w: string, keys: seq<Key>, more: seq<Key>, k: Key)
    requires k in keys && Name(k) == w
    requires forall j :: 0 <= j < |keys| && Name(keys[j]) == w ==> keys[j] == k
    ensures Find(w, keys + more) == Some(k)
    decreases |keys|
  {
    assert (keys + more)[1..] == keys[1..] + more;
    if keys[0] != k {
      assert Name(keys[0]) != w;
      FindFirst(w, keys[1..], more, k);
    }
  }

  lemma InGt(x: GtKey)
    ensures Gt(x) in GT_KEYS
  {
    match x
    case GtLatency => case GtWidth => case GtTrg => case GtStriggerMask => case GtCtriggerMask =>
    case GtSectorMask => case GtSectorMultMin => case GtSectorWidth => case GtPulserFreq => case GtDelay =>
    case GtPrescale =>
  }

  lemma InPair(x: PairKey)
    ensures Pair(x) in PAIR_KEYS
  {
    match x
    case PairEmin => case PairEmax => case PairNmin => case PairTimeCoincidence => case PairSummaxMin =>
    case PairDiffmax => case PairEnergydist => case PairCoplanarity => case PairEn => case PairHodo =>
  }

  lemma InSingle(x: SingleKey)
    ensures Single(x) in SINGLE_KEYS
  {
    match x
    case SingleEmin => case SingleEmax => case SingleNmin => case SingleXmin => case SinglePde =>
    case SingleHodo => case SingleEn =>
  }

  lemma InMult(x: MultKey)
    ensures Mult(x) in MULT_KEYS
  {
    match x
    case MultEmin => case MultEmax => case MultNmin => case MultMin => case MultDt => case MultEn =>
  }

  lemma InFee(x: FeeKey)
    ensures Fee(x) in FEE_KEYS
  {
    match x
    case FeeEn => case FeeEmin => case FeeEmax => case FeeNmin => case FeePrescale =>
  }

  lemma InHps(x: HpsKey)
    ensures Hps(x) in HPS_KEYS
  {
    match x
    case EcalTop => case EcalBottom => case EcalHitDt => case EcalSeedThr => case FadchitThr =>
    case HodoThr => case HodoDt => case CalibTopEn => case CalibBotEn => case CosmicDt => case CosmicTopEn =>
    case CosmicBotEn => case PulserEn => case PulserFreq => case HpsLatency => case HpsPrescale =>
  }

  lemma InPrinted(k: Key)
    requires Printed(k)
    ensures k in PRINTED_KEYS
  {
    match k
    case Gt(g) => InGt(g);
    case Pair(p) => InPair(p);
    case Single(x) => InSingle(x);
    case Mult(m) => InMult(m);
    case Fee(f) => InFee(f);
    case Hps(h) => InHps(h);
    case FthodoEmin => assert k in [FthodoEmin, PayloadEn];
    case PayloadEn => assert k in [FthodoEmin, PayloadEn];
  }

  lemma GroupsPrinted()
    ensures forall j :: 0 <= j < |PRINTED_KEYS| ==> Printed(PRINTED_KEYS[j])
  {
    assert forall k :: k in GT_KEYS ==> Printed(k);
    assert forall k :: k in PAIR_KEYS ==> Printed(k);
    assert forall k :: k in SINGLE_KEYS ==> Printed(k);
    assert forall k :: k in MULT_KEYS ==> Printed(k);
    assert forall k :: k in FEE_KEYS ==> Printed(k);
    assert forall k :: k in HPS_KEYS ==> Printed(k);
    forall j | 0 <= j < |PRINTED_KEYS| ensures Printed(PRINTED_KEYS[j]) {
      assert PRINTED_KEYS[j] in PRINTED_KEYS;
    }
  }

  lemma SuffixTail(prefix: string, a: string, b: string)
    requires prefix + a == prefix + b
    ensures a == b
  {
    assert a == (prefix + a)[|prefix|..] && b == (prefix + b)[|prefix|..];
  }

  lemma GtInjective(a: GtKey, b: GtKey)
    requires GtSuffix(a) == GtSuffix(b)
    ensures a == b
  {
  }

  lemma PairInjective(a: PairKey, b: PairKey)
    requires PairSuffix(a) == PairSuffix(b)
    ensures a == b
  {
  }

  lemma SingleInjective(a: SingleKey, b: SingleKey)
    requires SingleSuffix(a) == SingleSuffix(b)
    ensures a == b
  {
  }

  lemma MultInjective(a: MultKey, b: MultKey)
    requires MultSuffix(a) == MultSuffix(b)
    ensures a == b
  {
  }

  lemma FeeInjective(a: FeeKey, b: FeeKey)
    requires FeeSuffix(a) == FeeSuffix(b)
    ensures a == b
  {
  }

  lemma HpsInjective(a: HpsKey, b: HpsKey)
    requires HpsSuffix(a) == HpsSuffix(b)
    ensures a == b
  {
  }

  lemma HpsLetters(h: HpsKey)
    ensures var s := HpsSuffix(h); |s| >= 2 && (s[0] in "ECHL" || s[..2] == "PR")
  {
  }

  /** The characters that tell the groups apart: the fifth, the ninth and the tenth. */
  lemma GroupLetters(k: Key)
    requires Printed(k)
    ensures |Name(k)| >= 10
    ensures Name(k)[4] == (match k case Gt(_) => 'G' case FthodoEmin => 'F' case PayloadEn => 'P' case _ => 'H')
    ensures k.Pair? ==> Name(k)[8] == 'P' && Name(k)[9] == 'A'
    ensures k.Single? ==> Name(k)[8] == 'S'
    ensures k.Mult? ==> Name(k)[8] == 'M'
    ensures k.Fee? ==> Name(k)[8] == 'F'
    ensures k.Hps? ==> Name(k)[8] in "ECHL" || (Name(k)[8] == 'P' && Name(k)[9] == 'R')
  {
    match k
    case Gt(g) => GtLength(g);
    case Hps(h) => HpsGroupLetters(h);
    case _ =>
  }

  lemma HpsGroupLetters(h: HpsKey)
    ensures var n := Name(Hps(h));
            |n| >= 10 && n[4] == 'H' && (n[8] in "ECHL" || (n[8] == 'P' && n[9] == 'R'))
  {
    HpsLetters(h);
    var s := HpsSuffix(h);
    assert Name(Hps(h))[8] == s[0] && Name(Hps(h))[9] == s[1];
    if s[..2] == "PR" {
      assert s[0] == s[..2][0] && s[1] == s[..2][1];
    }
  }

  lemma GtLength(g: GtKey)
    ensures |GtSuffix(g)| >= 3
  {
  }

  lemma NamesDistinct(a: Key, b: Key)
    requires Printed(a) && Printed(b) && Name(a) == Name(b)
    ensures a == b
  {
    GroupLetters(a);
    GroupLetters(b);
    match a
    case Gt(g) => SuffixTail("VTP_GT_", GtSuffix(g), GtSuffix(b.g)); GtInjective(g, b.g);
    case Pair(p) => SuffixTail("VTP_HPS_PAIR_", PairSuffix(p), PairSuffix(b.p)); PairInjective(p, b.p);
    case Single(s) => SuffixTail("VTP_HPS_SINGLE_", SingleSuffix(s), SingleSuffix(b.s)); SingleInjective(s, b.s);
    case Mult(m) => SuffixTail("VTP_HPS_MULT_", MultSuffix(m), MultSuffix(b.m)); MultInjective(m, b.m);
    case Fee(f) => SuffixTail("VTP_HPS_FEE_", FeeSuffix(f), FeeSuffix(b.f)); FeeInjective(f, b.f);
    case Hps(h) => SuffixTail("VTP_HPS_", HpsSuffix(h), HpsSuffix(b.h)); HpsInjective(h, b.h);
    case _ =>
  }

  /** Every keyword that is printed is recognised. */
  lemma KeyOfName(k: Key)
    requires Printed(k)
    ensures KeyOf(Name(k)) == Some(k)
  {
    InPrinted(k);
    GroupsPrinted();
    forall j | 0 <= j < |PRINTED_KEYS| && Name(PRINTED_KEYS[j]) == Name(k) ensures PRINTED_KEYS[j] == k {
      NamesDistinct(PRINTED_KEYS[j], k);
    }
    FindFirst(Name(k), PRINTED_KEYS, OTHER_KEYS, k);
  }

  // ---------------------------------------------------------------- how the names look

  /** Capitals, digits and underscores. */
  ghost predicate Bare(s: string) {
    forall i :: 0 <= i < |s| ==> '0' <= s[i] <= '_'
  }

  lemma GtBare(g: GtKey)
    ensures Bare(GtSuffix(g)) && |GtSuffix(g)| <= 23
  {
  }

  lemma PairBare(p: PairKey)
    ensures Bare(PairSuffix(p)) && |PairSuffix(p)| <= 15
  {
  }

  lemma SingleBare(x: SingleKey)
    ensures Bare(SingleSuffix(x)) && |SingleSuffix(x)| <= 4
  {
  }

  lemma MultBare(m: MultKey)
    ensures Bare(MultSuffix(m)) && |MultSuffix(m)| <= 4
  {
  }

  lemma FeeBare(f: FeeKey)
    ensures Bare(FeeSuffix(f)) && |FeeSuffix(f)| <= 8
  {
  }

  predicate Calibration(h: HpsKey) {
    h.CalibTopEn? || h.CalibBotEn? || h.CosmicDt? || h.CosmicTopEn? || h.CosmicBotEn? || h.PulserEn? || h.PulserFreq?
  }

  lemma CalibrationBare(h: HpsKey)
    requires Calibration(h)
    ensures Bare(HpsSuffix(h)) && |HpsSuffix(h)| <= 22
  {
  }

  lemma OtherHpsBare(h: HpsKey)
    requires !Calibration(h)
    ensures Bare(HpsSuffix(h)) && |HpsSuffix(h)| <= 22
  {
  }

  lemma HpsBare(h: HpsKey)
    ensures Bare(HpsSuffix(h)) && |HpsSuffix(h)| <= 22
  {
    if Calibration(h) {
      CalibrationBare(h);
    } else {
      OtherHpsBare(h);
    }
  }

  lemma PrefixesBare()
    ensures Bare("VTP_GT_") && Bare("VTP_HPS_") && Bare("PAIR_") && Bare("SINGLE_") && Bare("MULT_") && Bare("FEE_")
    ensures Bare("VTP_FTHODO_EMIN") && Bare("VTP_PAYLOAD_EN")
  {
  }

  lemma BareJoin(a: string, b: string)
    requires Bare(a) && Bare(b)
    ensures Bare(a + b)
  {
  }

  /** A printed keyword is one word of one line, starts with a letter and is not the crate line. */
  lemma NameBare(k: Key)
    requires Printed(k)
    ensures Bare(Name(k)) && 10 <= |Name(k)| <= 32 && Name(k) != CRATE
    ensures Name(k)[0] == 'V'
  {
    PrefixesBare();
    GroupLetters(k);
    match k
    case Gt(g) => GtBare(g); BareJoin("VTP_GT_", GtSuffix(g));
    case Pair(p) =>
      PairBare(p);
      BareJoin("VTP_HPS_", "PAIR_");
      assert "VTP_HPS_PAIR_" == "VTP_HPS_" + "PAIR_";
      BareJoin("VTP_HPS_PAIR_", PairSuffix(p));
    case Single(x) =>
      SingleBare(x);
      BareJoin("VTP_HPS_", "SINGLE_");
      assert "VTP_HPS_SINGLE_" == "VTP_HPS_" + "SINGLE_";
      BareJoin("VTP_HPS_SINGLE_", SingleSuffix(x));
    case Mult(m) =>
      MultBare(m);
      BareJoin("VTP_HPS_", "MULT_");
      assert "VTP_HPS_MULT_" == "VTP_HPS_" + "MULT_";
      BareJoin("VTP_HPS_MULT_", MultSuffix(m));
    case Fee(f) =>
      FeeBare(f);
      BareJoin("VTP_HPS_", "FEE_");
      assert "VTP_HPS_FEE_" == "VTP_HPS_" + "FEE_";
      BareJoin("VTP_HPS_FEE_", FeeSuffix(f));
    case Hps(h) => HpsBare(h); BareJoin("VTP_HPS_", HpsSuffix(h));
    case FthodoEmin =>
    case PayloadEn =>
  }

  lemma BareIsWord(s: string)
    requires Bare(s)
    ensures AllIn(s, NonSpace) && OneLine(s)
  {
  }
}
