/**
 The configuration the reader fills and the printer prints: the streaming settings, and the
 global-trigger and HPS sections.  `GetField` is what the printer reads for a line, `PutField`
 what the reader stores from one; the field order in each follows its own side of the source.
 Float fields are carried as the text printf gives them.
 */
module ConfigStore {
  import opened Text
  import opened ConfigKeys

  type Int = v: int | -0x8000_0000 <= v <= 0x7fff_ffff
  type Mask = v: int | 0 <= v <= 0xffff_ffff

  datatype TrgBit = TrgBit(
    strigger0: Mask, strigger1: Mask, sector0: Mask, sector1: Mask, multMin0: Int, multMin1: Int,
    coinWidth: Int, ctrigger: Mask, delay: Int, pulserFreq: string, prescale: Int)

  datatype GtConf = GtConf(latency: Int, width: Int, trg: seq<TrgBit>)

  datatype PairTrig = PairTrig(
    emin: Int, emax: Int, nmin: Int, dt: Int, esumMin: Int, esumMax: Int, ediffMax: Int,
    edFactor: string, edThr: Int, coplanarityTol: Int, esumEn: Int, ediffEn: Int, edEn: Int,
    coplanarityEn: Int, hodoL1En: Int, hodoL2En: Int, hodoGeomEn: Int, hodoXGeomEn: Int, en: Int)

  datatype SingleTrig = SingleTrig(
    emin: Int, emax: Int, nmin: Int, xmin: Int, pde0: string, pde1: string, pde2: string, pde3: string,
    eminEn: Int, emaxEn: Int, nminEn: Int, xminEn: Int, pdeEn: Int,
    hodoL1En: Int, hodoL2En: Int, hodoGeomEn: Int, hodoXGeomEn: Int, en: Int)

  datatype MultTrig = MultTrig(
    emin: Int, emax: Int, nmin: Int, dt: Int, topMin: Int, botMin: Int, totMin: Int, en: Int)

  datatype FeeRegion = FeeRegion(xmin: Int, xmax: Int, prescale: Int)
  datatype FeeTrig = FeeTrig(emin: Int, emax: Int, nmin: Int, regions: seq<FeeRegion>, en: Int)

  datatype HpsSolo = HpsSolo(
    hitDt: Int, seedThr: Int, hodoDt: Int, fadchitThr: Int, hodoThr: Int, topEn: Int, botEn: Int,
    cosmicDt: Int, cosmicTopEn: Int, cosmicBotEn: Int, pulserFreq: string, pulserEn: Int, latency: Int)

  datatype HpsConf = HpsConf(
    topNBottom: Int, solo: HpsSolo, singles: seq<SingleTrig>, pairs: seq<PairTrig>,
    mults: seq<MultTrig>, fee: FeeTrig, prescales: seq<Int>)

  datatype Streaming = Streaming(
    statsPort: int, statsInst: int, syncPktLen: int, numConnections: int, netMode: int,
    enableEjfat: int, localPort: int, payloadEnArray: seq<int>)

  datatype Conf = Conf(
    payloadEn: nat, fiberEn: nat, streaming: Streaming, gt: GtConf, fthodoEmin: Int, hps: HpsConf)

  /** The arrays have their declared sizes. */
  predicate Shaped(c: Conf) {
    && |c.gt.trg| == 32 && |c.hps.singles| == 4 && |c.hps.pairs| == 4 && |c.hps.mults| == 2
    && |c.hps.fee.regions| == 7 && |c.hps.prescales| == 32 && |c.streaming.payloadEnArray| == 16
  }

  // ---------------------------------------------------------------- scanned arguments

  /** `argi[i]`: 0 where the scan did not reach. */
  function N(args: seq<Arg>, i: nat): Int {
    if i < |args| && args[i].Num? then Saturate(args[i].v) else 0
  }

  function M(args: seq<Arg>, i: nat): Mask {
    if i < |args| && args[i].Num? && 0 <= args[i].v <= 0xffff_ffff then args[i].v else 0
  }

  /** A float argument, as text; `argf` is cleared to 0 before each line. */
  function T(args: seq<Arg>, i: nat): string {
    if i < |args| && args[i].Fix? then args[i].t else "0.000000"
  }

  // ---------------------------------------------------------------- one section each

  predicate PerBit(g: GtKey) {
    !g.GtLatency? && !g.GtWidth?
  }

  function GetTrg(t: TrgBit, g: GtKey, i: nat): seq<Arg>
    requires PerBit(g) && i < 32
  {
    match g
    case GtTrg => [Num(i)]
    case GtStriggerMask => [Num(t.strigger0), Num(t.strigger1)]
    case GtCtriggerMask => [Num(t.ctrigger)]
    case GtSectorMask => [Num(t.sector0), Num(t.sector1)]
    case GtSectorMultMin => [Num(t.multMin0), Num(t.multMin1)]
    case GtSectorWidth => [Num(t.coinWidth)]
    case GtPulserFreq => [Fix(t.pulserFreq)]
    case GtDelay => [Num(t.delay)]
    case GtPrescale => [Num(t.prescale)]
  }

  function PutTrg(t: TrgBit, g: GtKey, a: seq<Arg>): TrgBit
    requires PerBit(g)
  {
    match g
    case GtTrg => t
    case GtStriggerMask => t.(strigger0 := M(a, 0), strigger1 := if |a| >= 2 then M(a, 1) else t.strigger1)
    case GtCtriggerMask => t.(ctrigger := M(a, 0))
    case GtSectorMask => t.(sector0 := M(a, 0), sector1 := if |a| >= 2 then M(a, 1) else t.sector1)
    case GtSectorMultMin => t.(multMin0 := N(a, 0), multMin1 := if |a| >= 2 then N(a, 1) else t.multMin1)
    case GtSectorWidth => t.(coinWidth := N(a, 0))
    case GtPulserFreq => t.(pulserFreq := T(a, 0))
    case GtDelay => t.(delay := N(a, 0))
    case GtPrescale => t.(prescale := N(a, 0))
  }

  /** An int as the mask it is stored in. */
  function AsMask(v: Int): Mask {
    v % 0x1_0000_0000
  }

  /** The short form of a trigger bit's lines: one mask or minimum of each kind, the others cleared. */
  function PutTrgbit(t: TrgBit, a: seq<Arg>): TrgBit {
    t.(strigger0 := AsMask(N(a, 1)), strigger1 := 0, sector0 := AsMask(N(a, 2)), sector1 := 0,
       multMin0 := N(a, 3), multMin1 := 0, coinWidth := N(a, 4), ctrigger := AsMask(N(a, 5)),
       delay := if |a| >= 7 then N(a, 6) else t.delay, prescale := if |a| >= 8 then N(a, 7) else t.prescale)
  }

  /** The long form: all of them. */
  function PutTrgbit2(t: TrgBit, a: seq<Arg>): TrgBit {
    t.(strigger0 := AsMask(N(a, 1)), sector0 := AsMask(N(a, 2)), multMin0 := N(a, 3),
       strigger1 := AsMask(N(a, 4)), sector1 := AsMask(N(a, 5)), multMin1 := N(a, 6),
       coinWidth := N(a, 7), ctrigger := AsMask(N(a, 8)), delay := N(a, 9), prescale := N(a, 10))
  }

  function GetPair(p: PairTrig, k: PairKey, i: nat): seq<Arg>
    requires i < 4
  {
    match k
    case PairEmin => [Num(i), Num(p.emin)]
    case PairEmax => [Num(i), Num(p.emax)]
    case PairNmin => [Num(i), Num(p.nmin)]
    case PairTimeCoincidence => [Num(i), Num(p.dt)]
    case PairSummaxMin => [Num(i), Num(p.esumMax), Num(p.esumMin), Num(p.esumEn)]
    case PairDiffmax => [Num(i), Num(p.ediffMax), Num(p.ediffEn)]
    case PairEnergydist => [Num(i), Fix(p.edFactor), Num(p.edThr), Num(p.edEn)]
    case PairCoplanarity => [Num(i), Num(p.coplanarityTol), Num(p.coplanarityEn)]
    case PairEn => [Num(i), Num(p.en)]
    case PairHodo => [Num(i), Num(p.hodoL1En), Num(p.hodoL2En), Num(p.hodoGeomEn), Num(p.hodoXGeomEn)]
  }

  function PutPair(p: PairTrig, k: PairKey, a: seq<Arg>): PairTrig {
    match k
    case PairEmin => p.(emin := N(a, 1))
    case PairEmax => p.(emax := N(a, 1))
    case PairNmin => p.(nmin := N(a, 1))
    case PairTimeCoincidence => p.(dt := N(a, 1))
    case PairSummaxMin => p.(esumMax := N(a, 1), esumMin := N(a, 2), esumEn := N(a, 3))
    case PairDiffmax => p.(ediffMax := N(a, 1), ediffEn := N(a, 2))
    case PairEnergydist => p.(edFactor := T(a, 1), edThr := N(a, 2), edEn := N(a, 3))
    case PairCoplanarity => p.(coplanarityTol := N(a, 1), coplanarityEn := N(a, 2))
    case PairEn => p.(en := N(a, 1))
    case PairHodo => p.(hodoL1En := N(a, 1), hodoL2En := N(a, 2), hodoGeomEn := N(a, 3), hodoXGeomEn := N(a, 4))
  }

  function GetSingle(s: SingleTrig, k: SingleKey, i: nat): seq<Arg>
    requires i < 4
  {
    match k
    case SingleEmin => [Num(i), Num(s.emin), Num(s.eminEn)]
    case SingleEmax => [Num(i), Num(s.emax), Num(s.emaxEn)]
    case SingleNmin => [Num(i), Num(s.nmin), Num(s.nminEn)]
    case SingleXmin => [Num(i), Num(s.xmin), Num(s.xminEn)]
    case SinglePde => [Num(i), Fix(s.pde0), Fix(s.pde1), Fix(s.pde2), Fix(s.pde3), Num(s.pdeEn)]
    case SingleHodo => [Num(i), Num(s.hodoL1En), Num(s.hodoL2En), Num(s.hodoGeomEn), Num(s.hodoXGeomEn)]
    case SingleEn => [Num(i), Num(s.en)]
  }

  function PutSingle(s: SingleTrig, k: SingleKey, a: seq<Arg>): SingleTrig {
    match k
    case SingleEmin => s.(emin := N(a, 1), eminEn := N(a, 2))
    case SingleEmax => s.(emax := N(a, 1), emaxEn := N(a, 2))
    case SingleNmin => s.(nmin := N(a, 1), nminEn := N(a, 2))
    case SingleXmin => s.(xmin := N(a, 1), xminEn := N(a, 2))
    case SinglePde => s.(pde0 := T(a, 1), pde1 := T(a, 2), pde2 := T(a, 3), pde3 := T(a, 4), pdeEn := N(a, 5))
    case SingleHodo => s.(hodoL1En := N(a, 1), hodoL2En := N(a, 2), hodoGeomEn := N(a, 3), hodoXGeomEn := N(a, 4))
    case SingleEn => s.(en := N(a, 1))
  }

  function GetMult(m: MultTrig, k: MultKey, i: nat): seq<Arg>
    requires i < 2
  {
    match k
    case MultEmin => [Num(i), Num(m.emin)]
    case MultEmax => [Num(i), Num(m.emax)]
    case MultNmin => [Num(i), Num(m.nmin)]
    case MultMin => [Num(i), Num(m.topMin), Num(m.botMin), Num(m.totMin)]
    case MultDt => [Num(i), Num(m.dt)]
    case MultEn => [Num(i), Num(m.en)]
  }

  function PutMult(m: MultTrig, k: MultKey, a: seq<Arg>): MultTrig {
    match k
    case MultEmin => m.(emin := N(a, 1))
    case MultEmax => m.(emax := N(a, 1))
    case MultNmin => m.(nmin := N(a, 1))
    case MultMin => m.(topMin := N(a, 1), botMin := N(a, 2), totMin := N(a, 3))
    case MultDt => m.(dt := N(a, 1))
    case MultEn => m.(en := N(a, 1))
  }

  function GetFee(f: FeeTrig, k: FeeKey, i: nat): seq<Arg>
    requires i < |f.regions| == 7
  {
    match k
    case FeeEn => [Num(f.en)]
    case FeeEmin => [Num(f.emin)]
    case FeeEmax => [Num(f.emax)]
    case FeeNmin => [Num(f.nmin)]
    case FeePrescale => [Num(i), Num(f.regions[i].xmin), Num(f.regions[i].xmax), Num(f.regions[i].prescale)]
  }

  function PutFee(f: FeeTrig, k: FeeKey, i: nat, a: seq<Arg>): FeeTrig
    requires i < |f.regions|
  {
    match k
    case FeeEn => f.(en := N(a, 0))
    case FeeEmin => f.(emin := N(a, 0))
    case FeeEmax => f.(emax := N(a, 0))
    case FeeNmin => f.(nmin := N(a, 0))
    case FeePrescale => f.(regions := f.regions[i := FeeRegion(N(a, 1), N(a, 2), N(a, 3))])
  }

  /** The HPS keywords with a field of their own. */
  predicate IsSolo(h: HpsKey) {
    !h.EcalTop? && !h.EcalBottom? && !h.HpsPrescale?
  }

  function GetSolo(s: HpsSolo, h: HpsKey): seq<Arg>
    requires IsSolo(h)
  {
    match h
    case EcalHitDt => [Num(s.hitDt)]
    case EcalSeedThr => [Num(s.seedThr)]
    case FadchitThr => [Num(s.fadchitThr)]
    case HodoThr => [Num(s.hodoThr)]
    case HodoDt => [Num(s.hodoDt)]
    case CalibTopEn => [Num(s.topEn)]
    case CalibBotEn => [Num(s.botEn)]
    case CosmicDt => [Num(s.cosmicDt)]
    case CosmicTopEn => [Num(s.cosmicTopEn)]
    case CosmicBotEn => [Num(s.cosmicBotEn)]
    case PulserEn => [Num(s.pulserEn)]
    case PulserFreq => [Fix(s.pulserFreq)]
    case HpsLatency => [Num(s.latency)]
  }

  function PutSolo(s: HpsSolo, h: HpsKey, a: seq<Arg>): HpsSolo
    requires IsSolo(h)
  {
    match h
    case EcalHitDt => s.(hitDt := N(a, 0))
    case EcalSeedThr => s.(seedThr := N(a, 0))
    case FadchitThr => s.(fadchitThr := N(a, 0))
    case HodoThr => s.(hodoThr := N(a, 0))
    case HodoDt => s.(hodoDt := N(a, 0))
    case CalibTopEn => s.(topEn := N(a, 0))
    case CalibBotEn => s.(botEn := N(a, 0))
    case CosmicDt => s.(cosmicDt := N(a, 0))
    case CosmicTopEn => s.(cosmicTopEn := N(a, 0))
    case CosmicBotEn => s.(cosmicBotEn := N(a, 0))
    case PulserEn => s.(pulserEn := N(a, 0))
    case PulserFreq => s.(pulserFreq := T(a, 0))
    case HpsLatency => s.(latency := N(a, 0))
  }

  // ---------------------------------------------------------------- the whole configuration

  /** How many instances a keyword's fields have. */
  function Count(k: Key): nat {
    match k
    case Gt(g) => if PerBit(g) then 32 else 1
    case Pair(_) => 4
    case Single(_) => 4
    case Mult(_) => 2
    case Fee(f) => if f.FeePrescale? then 7 else 1
    case Hps(h) => if h.HpsPrescale? then 32 else 1
    case _ => 1
  }

  /** Keyword `k` has a field with instance `i` that is stored and printed one for one. */
  predicate Field(k: Key, i: nat) {
    && (k.Gt? || k.Pair? || k.Single? || k.Mult? || k.Fee? || k.FthodoEmin?
        || (k.Hps? && !k.h.EcalTop? && !k.h.EcalBottom?))
    && i < Count(k)
  }

  function GetField(c: Conf, k: Key, i: nat): seq<Arg>
    requires Shaped(c) && Field(k, i)
  {
    match k
    case Gt(g) =>
      if g.GtLatency? then [Num(c.gt.latency)]
      else if g.GtWidth? then [Num(c.gt.width)]
      else GetTrg(c.gt.trg[i], g, i)
    case Pair(p) => GetPair(c.hps.pairs[i], p, i)
    case Single(s) => GetSingle(c.hps.singles[i], s, i)
    case Mult(m) => GetMult(c.hps.mults[i], m, i)
    case Fee(f) => GetFee(c.hps.fee, f, i)
    case Hps(h) => if h.HpsPrescale? then [Num(i), Num(c.hps.prescales[i])] else GetSolo(c.hps.solo, h)
    case FthodoEmin => [Num(c.fthodoEmin)]
  }

  function PutField(c: Conf, k: Key, i: nat, a: seq<Arg>): (d: Conf)
    requires Shaped(c) && Field(k, i)
    ensures Shaped(d)
  {
    match k
    case Gt(g) =>
      if g.GtLatency? then c.(gt := c.gt.(latency := N(a, 0)))
      else if g.GtWidth? then c.(gt := c.gt.(width := N(a, 0)))
      else c.(gt := c.gt.(trg := c.gt.trg[i := PutTrg(c.gt.trg[i], g, a)]))
    case Pair(p) => c.(hps := c.hps.(pairs := c.hps.pairs[i := PutPair(c.hps.pairs[i], p, a)]))
    case Single(s) => c.(hps := c.hps.(singles := c.hps.singles[i := PutSingle(c.hps.singles[i], s, a)]))
    case Mult(m) => c.(hps := c.hps.(mults := c.hps.mults[i := PutMult(c.hps.mults[i], m, a)]))
    case Fee(f) => c.(hps := c.hps.(fee := PutFee(c.hps.fee, f, i, a)))
    case Hps(h) =>
      if h.HpsPrescale? then c.(hps := c.hps.(prescales := c.hps.prescales[i := N(a, 1)]))
      else c.(hps := c.hps.(solo := PutSolo(c.hps.solo, h, a)))
    case FthodoEmin => c.(fthodoEmin := N(a, 0))
  }

  /** Storing what was printed makes the field print the same again. */
  lemma StoreThenPrint(c: Conf, from: Conf, k: Key, i: nat)
    requires Shaped(c) && Shaped(from) && Field(k, i)
    ensures GetField(PutField(c, k, i, GetField(from, k, i)), k, i) == GetField(from, k, i)
  {
    match k
    case Gt(g) => if PerBit(g) { TrgBack(c.gt.trg[i], from.gt.trg[i], g, i); }
    case Pair(p) => PairBack(c.hps.pairs[i], from.hps.pairs[i], p, i);
    case Single(s) => SingleBack(c.hps.singles[i], from.hps.singles[i], s, i);
    case Mult(m) => MultBack(c.hps.mults[i], from.hps.mults[i], m, i);
    case Fee(f) => FeeBack(c.hps.fee, from.hps.fee, f, i);
    case Hps(h) => if IsSolo(h) { SoloBack(c.hps.solo, from.hps.solo, h); }
    case FthodoEmin =>
  }

  lemma TrgBack(t: TrgBit, from: TrgBit, g: GtKey, i: nat)
    requires PerBit(g) && i < 32
    ensures GetTrg(PutTrg(t, g, GetTrg(from, g, i)), g, i) == GetTrg(from, g, i)
  {
  }

  lemma PairBack(p: PairTrig, from: PairTrig, k: PairKey, i: nat)
    requires i < 4
    ensures GetPair(PutPair(p, k, GetPair(from, k, i)), k, i) == GetPair(from, k, i)
  {
  }

  lemma SingleBack(s: SingleTrig, from: SingleTrig, k: SingleKey, i: nat)
    requires i < 4
    ensures GetSingle(PutSingle(s, k, GetSingle(from, k, i)), k, i) == GetSingle(from, k, i)
  {
  }

  lemma MultBack(m: MultTrig, from: MultTrig, k: MultKey, i: nat)
    requires i < 2
    ensures GetMult(PutMult(m, k, GetMult(from, k, i)), k, i) == GetMult(from, k, i)
  {
  }

  lemma FeeBack(f: FeeTrig, from: FeeTrig, k: FeeKey, i: nat)
    requires i < 7 && |f.regions| == 7 && |from.regions| == 7
    ensures |PutFee(f, k, i, GetFee(from, k, i)).regions| == 7
    ensures GetFee(PutFee(f, k, i, GetFee(from, k, i)), k, i) == GetFee(from, k, i)
  {
  }

  lemma SoloBack(s: HpsSolo, from: HpsSolo, h: HpsKey)
    requires IsSolo(h)
    ensures GetSolo(PutSolo(s, h, GetSolo(from, h)), h) == GetSolo(from, h)
  {
  }

  /** Storing one field changes what is printed for no other. */
  lemma StoreElsewhere(c: Conf, k: Key, i: nat, a: seq<Arg>, k': Key, i': nat)
    requires Shaped(c) && Field(k, i) && Field(k', i') && (k, i) != (k', i')
    ensures GetField(PutField(c, k, i, a), k', i') == GetField(c, k', i')
  {
    match k
    case Gt(g) => if PerBit(g) && k'.Gt? && k'.g != g { TrgApart(c.gt.trg[i], g, a, k'.g, i'); }
    case Pair(p) => if k'.Pair? && k'.p != p { PairApart(c.hps.pairs[i], p, a, k'.p, i'); }
    case Single(s) => if k'.Single? && k'.s != s { SingleApart(c.hps.singles[i], s, a, k'.s, i'); }
    case Mult(m) => if k'.Mult? && k'.m != m { MultApart(c.hps.mults[i], m, a, k'.m, i'); }
    case Fee(f) =>
    case Hps(h) => if IsSolo(h) && k'.Hps? && IsSolo(k'.h) && k'.h != h { SoloApart(c.hps.solo, h, a, k'.h); }
    case FthodoEmin =>
  }

  lemma TrgApart(t: TrgBit, g: GtKey, a: seq<Arg>, g': GtKey, i: nat)
    requires PerBit(g) && g != g' && i < Count(Gt(g'))
    ensures PerBit(g') ==> GetTrg(PutTrg(t, g, a), g', i) == GetTrg(t, g', i)
  {
  }

  lemma PairApart(p: PairTrig, k: PairKey, a: seq<Arg>, k': PairKey, i: nat)
    requires k != k' && i < 4
    ensures GetPair(PutPair(p, k, a), k', i) == GetPair(p, k', i)
  {
  }

  lemma SingleApart(s: SingleTrig, k: SingleKey, a: seq<Arg>, k': SingleKey, i: nat)
    requires k != k' && i < 4
    ensures GetSingle(PutSingle(s, k, a), k', i) == GetSingle(s, k', i)
  {
  }

  lemma MultApart(m: MultTrig, k: MultKey, a: seq<Arg>, k': MultKey, i: nat)
    requires k != k' && i < 2
    ensures GetMult(PutMult(m, k, a), k', i) == GetMult(m, k', i)
  {
  }

  lemma SoloApart(s: HpsSolo, h: HpsKey, a: seq<Arg>, h': HpsKey)
    requires IsSolo(h) && IsSolo(h') && h != h'
    ensures GetSolo(PutSolo(s, h, a), h') == GetSolo(s, h')
  {
  }
}
