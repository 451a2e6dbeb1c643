/**
 The lines of the configuration file written out: each keyword in full, the conversions it takes and
 the fields it stands for, in the order they are printed.
 */
module ConfigManual {
  import opened Options
  import opened Text
  import opened ConfigKeys
  import opened ConfigStore
  import opened ConfigReader
  import opened ConfigPrinter

  datatype Item = Item(word: string, kinds: seq<Kind>, args: seq<Arg>)

  function ItemText(x: Item): string
    requires |x.kinds| == |x.args|
  {
    x.word + (PrintArgs(x.kinds, x.args) + "\n")
  }

  function GtHead(g: GtConf): seq<Item> {
    [Item("VTP_GT_LATENCY", [D], [Num(g.latency)]),
     Item("VTP_GT_WIDTH", [D], [Num(g.width)])]
  }

  function TrgItems(t: TrgBit, i: nat): seq<Item> {
    [Item("VTP_GT_TRG", [D], [Num(i)]),
     Item("VTP_GT_TRG_SSP_STRIGGER_MASK", [X, X], [Num(t.strigger0), Num(t.strigger1)]),
     Item("VTP_GT_TRG_SSP_CTRIGGER_MASK", [X], [Num(t.ctrigger)]),
     Item("VTP_GT_TRG_SSP_SECTOR_MASK", [X, X], [Num(t.sector0), Num(t.sector1)]),
     Item("VTP_GT_TRG_SSP_SECTOR_MULT_MIN", [D, D], [Num(t.multMin0), Num(t.multMin1)]),
     Item("VTP_GT_TRG_SSP_SECTOR_WIDTH", [D], [Num(t.coinWidth)]),
     Item("VTP_GT_TRG_PULSER_FREQ", [F], [Fix(t.pulserFreq)]),
     Item("VTP_GT_TRG_DELAY", [D], [Num(t.delay)]),
     Item("VTP_GT_TRG_PRESCALE", [D], [Num(t.prescale)])]
  }

  function PairItems(p: PairTrig, i: nat): seq<Item> {
    [Item("VTP_HPS_PAIR_EMIN", [D, D], [Num(i), Num(p.emin)]),
     Item("VTP_HPS_PAIR_EMAX", [D, D], [Num(i), Num(p.emax)]),
     Item("VTP_HPS_PAIR_NMIN", [D, D], [Num(i), Num(p.nmin)]),
     Item("VTP_HPS_PAIR_TIMECOINCIDENCE", [D, D], [Num(i), Num(p.dt)]),
     Item("VTP_HPS_PAIR_SUMMAX_MIN", [D, D, D, D], [Num(i), Num(p.esumMax), Num(p.esumMin), Num(p.esumEn)]),
     Item("VTP_HPS_PAIR_DIFFMAX", [D, D, D], [Num(i), Num(p.ediffMax), Num(p.ediffEn)]),
     Item("VTP_HPS_PAIR_ENERGYDIST", [D, F, D, D], [Num(i), Fix(p.edFactor), Num(p.edThr), Num(p.edEn)]),
     Item("VTP_HPS_PAIR_COPLANARITY", [D, D, D], [Num(i), Num(p.coplanarityTol), Num(p.coplanarityEn)]),
     Item("VTP_HPS_PAIR_EN", [D, D], [Num(i), Num(p.en)]),
     Item("VTP_HPS_PAIR_HODO", [D, D, D, D, D],
          [Num(i), Num(p.hodoL1En), Num(p.hodoL2En), Num(p.hodoGeomEn), Num(p.hodoXGeomEn)])]
  }

  function SingleItems(s: SingleTrig, i: nat): seq<Item> {
    [Item("VTP_HPS_SINGLE_EMIN", [D, D, D], [Num(i), Num(s.emin), Num(s.eminEn)]),
     Item("VTP_HPS_SINGLE_EMAX", [D, D, D], [Num(i), Num(s.emax), Num(s.emaxEn)]),
     Item("VTP_HPS_SINGLE_NMIN", [D, D, D], [Num(i), Num(s.nmin), Num(s.nminEn)]),
     Item("VTP_HPS_SINGLE_XMIN", [D, D, D], [Num(i), Num(s.xmin), Num(s.xminEn)]),
     Item("VTP_HPS_SINGLE_PDE", [D, F, F, F, F, D],
          [Num(i), Fix(s.pde0), Fix(s.pde1), Fix(s.pde2), Fix(s.pde3), Num(s.pdeEn)]),
     Item("VTP_HPS_SINGLE_HODO", [D, D, D, D, D],
          [Num(i), Num(s.hodoL1En), Num(s.hodoL2En), Num(s.hodoGeomEn), Num(s.hodoXGeomEn)]),
     Item("VTP_HPS_SINGLE_EN", [D, D], [Num(i), Num(s.en)])]
  }

  function MultItems(m: MultTrig, i: nat): seq<Item> {
    [Item("VTP_HPS_MULT_EMIN", [D, D], [Num(i), Num(m.emin)]),
     Item("VTP_HPS_MULT_EMAX", [D, D], [Num(i), Num(m.emax)]),
     Item("VTP_HPS_MULT_NMIN", [D, D], [Num(i), Num(m.nmin)]),
     Item("VTP_HPS_MULT_MIN", [D, D, D, D], [Num(i), Num(m.topMin), Num(m.botMin), Num(m.totMin)]),
     Item("VTP_HPS_MULT_DT", [D, D], [Num(i), Num(m.dt)]),
     Item("VTP_HPS_MULT_EN", [D, D], [Num(i), Num(m.en)])]
  }

  function FeeItems(f: FeeTrig): seq<Item> {
    [Item("VTP_HPS_FEE_EN", [D], [Num(f.en)]), Item("VTP_HPS_FEE_EMIN", [D], [Num(f.emin)]),
     Item("VTP_HPS_FEE_EMAX", [D], [Num(f.emax)]), Item("VTP_HPS_FEE_NMIN", [D], [Num(f.nmin)])]
  }

  function RegionItem(f: FeeTrig, i: nat): Item
    requires i < |f.regions|
  {
    Item("VTP_HPS_FEE_PRESCALE", [D, D, D, D],
         [Num(i), Num(f.regions[i].xmin), Num(f.regions[i].xmax), Num(f.regions[i].prescale)])
  }

  /** The lines between the first two blocks of triggers. */
  function CalibItems(fthodoEmin: Int, h: HpsConf): seq<Item> {
    [Item("VTP_FTHODO_EMIN", [D], [Num(fthodoEmin)]),
     Item(if h.topNBottom != 0 then "VTP_HPS_ECAL_TOP" else "VTP_HPS_ECAL_BOT", [], []),
     Item("VTP_HPS_ECAL_CLUSTER_HIT_DT", [D], [Num(h.solo.hitDt)]),
     Item("VTP_HPS_ECAL_CLUSTER_SEED_THR", [D], [Num(h.solo.seedThr)]),
     Item("VTP_HPS_HODOSCOPE_FADCHIT_THR", [D], [Num(h.solo.fadchitThr)]),
     Item("VTP_HPS_HODOSCOPE_HODO_THR", [D], [Num(h.solo.hodoThr)]),
     Item("VTP_HPS_HODOSCOPE_HODO_DT", [D], [Num(h.solo.hodoDt)]),
     Item("VTP_HPS_CALIB_HODOSCOPE_TOP_EN", [D], [Num(h.solo.topEn)]),
     Item("VTP_HPS_CALIB_HODOSCOPE_BOT_EN", [D], [Num(h.solo.botEn)]),
     Item("VTP_HPS_CALIB_COSMIC_DT", [D], [Num(h.solo.cosmicDt)]),
     Item("VTP_HPS_CALIB_COSMIC_TOP_EN", [D], [Num(h.solo.cosmicTopEn)]),
     Item("VTP_HPS_CALIB_COSMIC_BOT_EN", [D], [Num(h.solo.cosmicBotEn)]),
     Item("VTP_HPS_CALIB_PULSER_EN", [D], [Num(h.solo.pulserEn)]),
     Item("VTP_HPS_CALIB_PULSER_FREQ", [F], [Fix(h.solo.pulserFreq)])]
  }

  function LatencyItem(h: HpsConf): Item {
    Item("VTP_HPS_LATENCY", [D], [Num(h.solo.latency)])
  }

  function PrescaleItem(h: HpsConf, i: nat): Item
    requires i < |h.prescales|
  {
    Item("VTP_HPS_PRESCALE", [D, D], [Num(i), Num(h.prescales[i])])
  }

  // ---------------------------------------------------------------- a line is its item

  /** A printed line is the item's text. */
  ghost predicate Shows(c: Conf, x: Line, item: Item)
    requires Shaped(c) && Good(x)
  {
    |item.kinds| == |item.args| && LineText(c, x) == ItemText(item)
  }

  lemma ValueShows(c: Conf, k: Key, i: nat, item: Item)
    requires Shaped(c) && Field(k, i)
    requires Name(k) == item.word && Kinds(k) == item.kinds && GetField(c, k, i) == item.args
    ensures Shows(c, Value(k, i), item)
  {
    Arity(c, k, i);
  }

  lemma TrgName()
    ensures Name(Gt(GtTrg)) == "VTP_GT_TRG"
  {
  }

  lemma StriggerMaskName()
    ensures Name(Gt(GtStriggerMask)) == "VTP_GT_TRG_SSP_STRIGGER_MASK"
  {
  }

  lemma CtriggerMaskName()
    ensures Name(Gt(GtCtriggerMask)) == "VTP_GT_TRG_SSP_CTRIGGER_MASK"
  {
  }

  lemma SectorMaskName()
    ensures Name(Gt(GtSectorMask)) == "VTP_GT_TRG_SSP_SECTOR_MASK"
  {
  }

  lemma SectorMultMinName()
    ensures Name(Gt(GtSectorMultMin)) == "VTP_GT_TRG_SSP_SECTOR_MULT_MIN"
  {
  }

  lemma SectorWidthName()
    ensures Name(Gt(GtSectorWidth)) == "VTP_GT_TRG_SSP_SECTOR_WIDTH"
  {
  }

  lemma PulserFreqName()
    ensures Name(Gt(GtPulserFreq)) == "VTP_GT_TRG_PULSER_FREQ"
  {
  }

  lemma DelayName()
    ensures Name(Gt(GtDelay)) == "VTP_GT_TRG_DELAY"
  {
  }

  lemma PrescaleName()
    ensures Name(Gt(GtPrescale)) == "VTP_GT_TRG_PRESCALE"
  {
  }

  lemma TrgWords(t: TrgBit, i: nat, j: nat)
    requires j < 9
    ensures |TrgLines(i)| == |TrgItems(t, i)| == 9 && TrgLines(i)[j].Value?
    ensures TrgItems(t, i)[j].word == Name(TrgLines(i)[j].k)
  {
    TrgName();
    StriggerMaskName();
    CtriggerMaskName();
    SectorMaskName();
    SectorMultMinName();
    SectorWidthName();
    PulserFreqName();
    DelayName();
    PrescaleName();
  }

  lemma TrgFields(c: Conf, i: nat, j: nat)
    requires Shaped(c) && i < 32 && j < 9
    ensures |TrgLines(i)| == 9 && TrgLines(i)[j].Value? && TrgLines(i)[j].i == i
    ensures var x, k := TrgItems(c.gt.trg[i], i)[j], TrgLines(i)[j].k;
            Field(k, i) && x.kinds == Kinds(k) && x.args == GetField(c, k, i)
  {
  }

  lemma TrgShows(c: Conf, i: nat, j: nat)
    requires Shaped(c) && i < 32 && j < 9
    ensures |TrgLines(i)| == |TrgItems(c.gt.trg[i], i)| == 9
    ensures Good(TrgLines(i)[j]) && Shows(c, TrgLines(i)[j], TrgItems(c.gt.trg[i], i)[j])
  {
    TrgWords(c.gt.trg[i], i, j);
    TrgFields(c, i, j);
    ValueShows(c, TrgLines(i)[j].k, i, TrgItems(c.gt.trg[i], i)[j]);
  }

  lemma PairEminName()
    ensures Name(Pair(PairEmin)) == "VTP_HPS_PAIR_EMIN"
  {
  }

  lemma PairEmaxName()
    ensures Name(Pair(PairEmax)) == "VTP_HPS_PAIR_EMAX"
  {
  }

  lemma PairNminName()
    ensures Name(Pair(PairNmin)) == "VTP_HPS_PAIR_NMIN"
  {
  }

  lemma PairTimeCoincidenceName()
    ensures Name(Pair(PairTimeCoincidence)) == "VTP_HPS_PAIR_TIMECOINCIDENCE"
  {
  }

  lemma PairSummaxMinName()
    ensures Name(Pair(PairSummaxMin)) == "VTP_HPS_PAIR_SUMMAX_MIN"
  {
  }

  lemma PairDiffmaxName()
    ensures Name(Pair(PairDiffmax)) == "VTP_HPS_PAIR_DIFFMAX"
  {
  }

  lemma PairEnergydistName()
    ensures Name(Pair(PairEnergydist)) == "VTP_HPS_PAIR_ENERGYDIST"
  {
  }

  lemma PairCoplanarityName()
    ensures Name(Pair(PairCoplanarity)) == "VTP_HPS_PAIR_COPLANARITY"
  {
  }

  lemma PairEnName()
    ensures Name(Pair(PairEn)) == "VTP_HPS_PAIR_EN"
  {
  }

  lemma PairHodoName()
    ensures Name(Pair(PairHodo)) == "VTP_HPS_PAIR_HODO"
  {
  }

  lemma PairWords(p: PairTrig, i: nat, j: nat)
    requires j < 10
    ensures |PairLines(i)| == |PairItems(p, i)| == 10 && PairLines(i)[j].Value?
    ensures PairItems(p, i)[j].word == Name(PairLines(i)[j].k)
  {
    PairEminName();
    PairEmaxName();
    PairNminName();
    PairTimeCoincidenceName();
    PairSummaxMinName();
    PairDiffmaxName();
    PairEnergydistName();
    PairCoplanarityName();
    PairEnName();
    PairHodoName();
  }

  lemma PairFields(c: Conf, i: nat, j: nat)
    requires Shaped(c) && i < 4 && j < 10
    ensures |PairLines(i)| == 10 && PairLines(i)[j].Value? && PairLines(i)[j].i == i
    ensures var x, k := PairItems(c.hps.pairs[i], i)[j], PairLines(i)[j].k;
            Field(k, i) && x.kinds == Kinds(k) && x.args == GetField(c, k, i)
  {
  }

  lemma PairShows(c: Conf, i: nat, j: nat)
    requires Shaped(c) && i < 4 && j < 10
    ensures |PairLines(i)| == |PairItems(c.hps.pairs[i], i)| == 10
    ensures Good(PairLines(i)[j]) && Shows(c, PairLines(i)[j], PairItems(c.hps.pairs[i], i)[j])
  {
    PairWords(c.hps.pairs[i], i, j);
    PairFields(c, i, j);
    ValueShows(c, PairLines(i)[j].k, i, PairItems(c.hps.pairs[i], i)[j]);
  }

  lemma SingleWords(s: SingleTrig, i: nat, j: nat)
    requires j < 7
    ensures |SingleLines(i)| == |SingleItems(s, i)| == 7 && SingleLines(i)[j].Value? && SingleLines(i)[j].i == i
    ensures SingleItems(s, i)[j].word == Name(SingleLines(i)[j].k)
  {
  }

  lemma SingleFields(c: Conf, i: nat, j: nat)
    requires Shaped(c) && i < 4 && j < 7
    ensures |SingleLines(i)| == 7 && SingleLines(i)[j].Value? && SingleLines(i)[j].i == i
    ensures var x, k := SingleItems(c.hps.singles[i], i)[j], SingleLines(i)[j].k;
            Field(k, i) && x.kinds == Kinds(k) && x.args == GetField(c, k, i)
  {
  }

  lemma SingleShows(c: Conf, i: nat, j: nat)
    requires Shaped(c) && i < 4 && j < 7
    ensures |SingleLines(i)| == |SingleItems(c.hps.singles[i], i)| == 7
    ensures Good(SingleLines(i)[j]) && Shows(c, SingleLines(i)[j], SingleItems(c.hps.singles[i], i)[j])
  {
    SingleWords(c.hps.singles[i], i, j);
    SingleFields(c, i, j);
    ValueShows(c, SingleLines(i)[j].k, i, SingleItems(c.hps.singles[i], i)[j]);
  }

  lemma MultWords(m: MultTrig, i: nat, j: nat)
    requires j < 6
    ensures |MultLines(i)| == |MultItems(m, i)| == 6 && MultLines(i)[j].Value? && MultLines(i)[j].i == i
    ensures MultItems(m, i)[j].word == Name(MultLines(i)[j].k)
  {
  }

  lemma MultFields(c: Conf, i: nat, j: nat)
    requires Shaped(c) && i < 2 && j < 6
    ensures |MultLines(i)| == 6 && MultLines(i)[j].Value? && MultLines(i)[j].i == i
    ensures var x, k := MultItems(c.hps.mults[i], i)[j], MultLines(i)[j].k;
            Field(k, i) && x.kinds == Kinds(k) && x.args == GetField(c, k, i)
  {
  }

  lemma MultShows(c: Conf, i: nat, j: nat)
    requires Shaped(c) && i < 2 && j < 6
    ensures |MultLines(i)| == |MultItems(c.hps.mults[i], i)| == 6
    ensures Good(MultLines(i)[j]) && Shows(c, MultLines(i)[j], MultItems(c.hps.mults[i], i)[j])
  {
    MultWords(c.hps.mults[i], i, j);
    MultFields(c, i, j);
    ValueShows(c, MultLines(i)[j].k, i, MultItems(c.hps.mults[i], i)[j]);
  }


  // ---------------------------------------------------------------- lines on their own

  lemma HeadShows(c: Conf)
    requires Shaped(c)
    ensures Shows(c, Value(Gt(GtLatency), 0), GtHead(c.gt)[0]) && Shows(c, Value(Gt(GtWidth), 0), GtHead(c.gt)[1])
  {
    ValueShows(c, Gt(GtLatency), 0, GtHead(c.gt)[0]);
    ValueShows(c, Gt(GtWidth), 0, GtHead(c.gt)[1]);
  }

  lemma FeeShows(c: Conf, j: nat)
    requires Shaped(c) && j < 4
    ensures FeeLines()[j].Value? && Good(FeeLines()[j]) && Shows(c, FeeLines()[j], FeeItems(c.hps.fee)[j])
  {
    assert FeeLines()[..4]
        == [Value(Fee(FeeEn), 0), Value(Fee(FeeEmin), 0), Value(Fee(FeeEmax), 0), Value(Fee(FeeNmin), 0)];
    assert FeeLines()[j] == FeeLines()[..4][j];
    ValueShows(c, FeeLines()[j].k, 0, FeeItems(c.hps.fee)[j]);
  }

  lemma RegionShows(c: Conf, i: nat)
    requires Shaped(c) && i < 7
    ensures Shows(c, Value(Fee(FeePrescale), i), RegionItem(c.hps.fee, i))
  {
    ValueShows(c, Fee(FeePrescale), i, RegionItem(c.hps.fee, i));
  }

  lemma LatencyShows(c: Conf)
    requires Shaped(c)
    ensures Shows(c, Value(Hps(HpsLatency), 0), LatencyItem(c.hps))
  {
    ValueShows(c, Hps(HpsLatency), 0, LatencyItem(c.hps));
  }

  lemma PrescaleShows(c: Conf, i: nat)
    requires Shaped(c) && i < 32
    ensures Shows(c, Value(Hps(HpsPrescale), i), PrescaleItem(c.hps, i))
  {
    ValueShows(c, Hps(HpsPrescale), i, PrescaleItem(c.hps, i));
  }

  lemma TopShows(c: Conf)
    requires Shaped(c)
    ensures Shows(c, TopOrBottom, CalibItems(c.fthodoEmin, c.hps)[1])
  {
    assert PrintArgs([], []) + "\n" == "\n";
    assert Name(Hps(EcalTop)) == "VTP_HPS_ECAL_TOP";
  }

  lemma CalibEcalHitDtName()
    ensures Name(Hps(EcalHitDt)) == "VTP_HPS_ECAL_CLUSTER_HIT_DT"
  {
  }

  lemma CalibEcalSeedThrName()
    ensures Name(Hps(EcalSeedThr)) == "VTP_HPS_ECAL_CLUSTER_SEED_THR"
  {
  }

  lemma CalibFadchitThrName()
    ensures Name(Hps(FadchitThr)) == "VTP_HPS_HODOSCOPE_FADCHIT_THR"
  {
  }

  lemma CalibHodoThrName()
    ensures Name(Hps(HodoThr)) == "VTP_HPS_HODOSCOPE_HODO_THR"
  {
  }

  lemma CalibHodoDtName()
    ensures Name(Hps(HodoDt)) == "VTP_HPS_HODOSCOPE_HODO_DT"
  {
  }

  lemma CalibTopEnName()
    ensures Name(Hps(CalibTopEn)) == "VTP_HPS_CALIB_HODOSCOPE_TOP_EN"
  {
  }

  lemma CalibBotEnName()
    ensures Name(Hps(CalibBotEn)) == "VTP_HPS_CALIB_HODOSCOPE_BOT_EN"
  {
  }

  lemma CalibCosmicDtName()
    ensures Name(Hps(CosmicDt)) == "VTP_HPS_CALIB_COSMIC_DT"
  {
  }

  lemma CalibCosmicTopEnName()
    ensures Name(Hps(CosmicTopEn)) == "VTP_HPS_CALIB_COSMIC_TOP_EN"
  {
  }

  lemma CalibCosmicBotEnName()
    ensures Name(Hps(CosmicBotEn)) == "VTP_HPS_CALIB_COSMIC_BOT_EN"
  {
  }

  lemma CalibPulserEnName()
    ensures Name(Hps(PulserEn)) == "VTP_HPS_CALIB_PULSER_EN"
  {
  }

  lemma CalibPulserFreqName()
    ensures Name(Hps(HpsKey.PulserFreq)) == "VTP_HPS_CALIB_PULSER_FREQ"
  {
  }

  lemma CalibNames(fthodoEmin: Int, h: HpsConf, j: nat)
    requires 2 <= j < 14
    ensures CalibLines()[j].Value? && CalibLines()[j].i == 0
    ensures CalibItems(fthodoEmin, h)[j].word == Name(CalibLines()[j].k)
  {
    CalibEcalHitDtName();
    CalibEcalSeedThrName();
    CalibFadchitThrName();
    CalibHodoThrName();
    CalibHodoDtName();
    CalibTopEnName();
    CalibBotEnName();
    CalibCosmicDtName();
    CalibCosmicTopEnName();
    CalibCosmicBotEnName();
    CalibPulserEnName();
    CalibPulserFreqName();
  }

  lemma CalibKeys(j: nat)
    requires 2 <= j < 14
    ensures CalibLines()[j].Value? && CalibLines()[j].i == 0
    ensures CalibLines()[j].k.Hps? && IsSolo(CalibLines()[j].k.h)
  {
  }

  lemma CalibArgs(fthodoEmin: Int, h: HpsConf, j: nat)
    requires 2 <= j < 14 && CalibLines()[j].Value? && CalibLines()[j].k.Hps? && IsSolo(CalibLines()[j].k.h)
    ensures CalibItems(fthodoEmin, h)[j].args == GetSolo(h.solo, CalibLines()[j].k.h)
  {
  }

  lemma CalibKinds(fthodoEmin: Int, h: HpsConf, j: nat)
    requires 2 <= j < 14 && CalibLines()[j].Value?
    ensures CalibItems(fthodoEmin, h)[j].kinds == Kinds(CalibLines()[j].k)
  {
  }

  lemma CalibFields(c: Conf, j: nat)
    requires Shaped(c) && 2 <= j < 14
    ensures CalibLines()[j].Value? && CalibLines()[j].i == 0
    ensures var x, k := CalibItems(c.fthodoEmin, c.hps)[j], CalibLines()[j].k;
            Field(k, 0) && x.kinds == Kinds(k) && x.args == GetField(c, k, 0)
  {
    CalibKeys(j);
    CalibArgs(c.fthodoEmin, c.hps, j);
    CalibKinds(c.fthodoEmin, c.hps, j);
  }

  lemma CalibShows(c: Conf, j: nat)
    requires Shaped(c) && j < 14
    ensures |CalibLines()| == |CalibItems(c.fthodoEmin, c.hps)| == 14
    ensures Good(CalibLines()[j]) && Shows(c, CalibLines()[j], CalibItems(c.fthodoEmin, c.hps)[j])
  {
    if j == 0 {
      ValueShows(c, FthodoEmin, 0, CalibItems(c.fthodoEmin, c.hps)[0]);
    } else if j == 1 {
      TopShows(c);
    } else {
      CalibNames(c.fthodoEmin, c.hps, j);
      CalibFields(c, j);
      ValueShows(c, CalibLines()[j].k, 0, CalibItems(c.fthodoEmin, c.hps)[j]);
    }
  }

  // ---------------------------------------------------------------- where each line stands

  lemma {:induction false} EachAt(block: nat -> seq<Line>, n: nat, width: nat, i: nat, j: nat)
    requires i < n && j < width && forall k: nat :: k < n ==> |block(k)| == width
    ensures |Each(block, n)| == width * n && width * i + j < width * n
    ensures Each(block, n)[width * i + j] == block(i)[j]
  {
    EachSnoc(block, n);
    EachLength(block, n - 1, width);
    Inside(width, n - 1, i, j);
    if i < n - 1 {
      EachAt(block, n - 1, width, i, j);
    }
  }

  lemma {:induction false} EachLength(block: nat -> seq<Line>, n: nat, width: nat)
    requires forall k: nat :: k < n ==> |block(k)| == width
    ensures |Each(block, n)| == width * n
  {
    EachSnoc(block, n);
    if n > 0 {
      EachLength(block, n - 1, width);
    }
  }

  lemma Inside(width: nat, m: nat, i: nat, j: nat)
    requires j < width && i <= m
    ensures width * i + j < width * (m + 1) && (i < m ==> width * i + j < width * m)
  {
    if i < m {
      assert width * (i + 1) <= width * m;
    }
    assert width * (i + 1) <= width * (m + 1);
  }

  /** The global-trigger listing: latency, width, and nine lines for each trigger bit. */
  lemma GtListed(c: Conf, i: nat, j: nat)
    requires Shaped(c) && i < 32 && j < 9
    ensures |GtLines()| == 290
    ensures var x := GtLines()[2 + 9 * i + j]; Good(x) && Shows(c, x, TrgItems(c.gt.trg[i], i)[j])
    ensures var x := GtLines()[0]; Good(x) && Shows(c, x, GtHead(c.gt)[0])
    ensures var x := GtLines()[1]; Good(x) && Shows(c, x, GtHead(c.gt)[1])
  {
    EachAt(TrgLines, 32, 9, i, j);
    TrgShows(c, i, j);
    HeadShows(c);
  }

  lemma {:induction false} PartAt(block: nat -> seq<Line>, n: nat, p: nat, q: nat)
    requires p < n && q < |block(p)|
    ensures |Each(block, p)| + q < |Each(block, n)| && Each(block, n)[|Each(block, p)| + q] == block(p)[q]
  {
    EachSnoc(block, n);
    if p < n - 1 {
      PartAt(block, n - 1, p, q);
    }
  }

  /** How many lines each part of the HPS listing has. */
  function PartLength(p: nat): nat {
    match p
    case 0 => 40
    case 1 => 14
    case 2 => 28
    case 3 => 40
    case 4 => 12
    case 5 => 11
    case 6 => 1
    case _ => 32
  }

  lemma PartLengths(p: nat)
    requires p < 8
    ensures |HpsPart(p)| == PartLength(p)
  {
    match p
    case 0 => EachLength(PairLines, 4, 10);
    case 1 =>
    case 2 => EachLength(SingleLines, 4, 7);
    case 3 => EachLength(PairLines, 4, 10);
    case 4 => EachLength(MultLines, 2, 6);
    case 5 => EachLength(FeeLine, 7, 1);
    case 6 =>
    case 7 => EachLength(PrescaleLine, 32, 1);
  }

  /** Where the parts begin. */
  function StartOf(length: nat -> nat, p: nat): nat {
    if p == 0 then 0 else StartOf(length, p - 1) + length(p - 1)
  }

  lemma {:induction false} StartsAt(block: nat -> seq<Line>, length: nat -> nat, p: nat)
    requires forall k: nat :: k < p ==> |block(k)| == length(k)
    ensures |Each(block, p)| == StartOf(length, p)
  {
    EachSnoc(block, p);
    if p > 0 {
      StartsAt(block, length, p - 1);
    }
  }

  lemma InParts(block: nat -> seq<Line>, length: nat -> nat, n: nat, p: nat, q: nat)
    requires p < n && q < length(p) && forall k: nat :: k < n ==> |block(k)| == length(k)
    ensures |Each(block, n)| == StartOf(length, n) && StartOf(length, p) + q < |Each(block, n)| && q < |block(p)|
    ensures Each(block, n)[StartOf(length, p) + q] == block(p)[q]
  {
    assert |Each(block, p)| == StartOf(length, p) by {
      StartsAt(block, length, p);
    }
    assert |Each(block, n)| == StartOf(length, n) by {
      StartsAt(block, length, n);
    }
    assert |block(p)| == length(p);
    PartAt(block, n, p, q);
  }

  function PartStart(p: nat): nat {
    match p
    case 0 => 0
    case 1 => 40
    case 2 => 54
    case 3 => 82
    case 4 => 122
    case 5 => 134
    case 6 => 145
    case 7 => 146
    case _ => 178
  }

  lemma {:induction false} Starts(p: nat)
    requires p <= 8
    ensures StartOf(PartLength, p) == PartStart(p)
  {
    if p > 0 {
      Starts(p - 1);
    }
  }

  /** Line `x` stands at `place` of the HPS listing. */
  ghost predicate StandsAt(place: nat, x: Line) {
    |HpsLines()| == 178 && place < 178 && HpsLines()[place] == x
  }

  lemma InHps(p: nat, q: nat)
    requires p < 8 && q < PartLength(p)
    ensures q < |HpsPart(p)| && StandsAt(PartStart(p) + q, HpsPart(p)[q])
  {
    forall k: nat | k < 8 ensures |HpsPart(k)| == PartLength(k) {
      PartLengths(k);
    }
    InParts(HpsPart, PartLength, 8, p, q);
    Starts(p);
    Starts(8);
  }

  lemma PairsAt(i: nat, j: nat)
    requires i < 4 && j < 10
    ensures |PairLines(i)| == 10
    ensures StandsAt(10 * i + j, PairLines(i)[j]) && StandsAt(82 + (10 * i + j), PairLines(i)[j])
  {
    EachAt(PairLines, 4, 10, i, j);
    InHps(0, 10 * i + j);
    InHps(3, 10 * i + j);
  }

  lemma SinglesAt(i: nat, j: nat)
    requires i < 4 && j < 7
    ensures |SingleLines(i)| == 7 && StandsAt(54 + (7 * i + j), SingleLines(i)[j])
  {
    EachAt(SingleLines, 4, 7, i, j);
    InHps(2, 7 * i + j);
  }

  lemma MultsAt(i: nat, j: nat)
    requires i < 2 && j < 6
    ensures |MultLines(i)| == 6 && StandsAt(122 + (6 * i + j), MultLines(i)[j])
  {
    EachAt(MultLines, 2, 6, i, j);
    InHps(4, 6 * i + j);
  }

  lemma CalibAt(j: nat)
    requires j < 14
    ensures |CalibLines()| == 14 && StandsAt(40 + j, CalibLines()[j])
  {
    InHps(1, j);
  }

  lemma FeeAt(j: nat)
    requires j < 11
    ensures |FeeLines()| == 11 && StandsAt(134 + j, FeeLines()[j])
  {
    PartLengths(5);
    InHps(5, j);
  }

  lemma RegionAt(i: nat)
    requires i < 7
    ensures |FeeLines()| == 11 && FeeLines()[4 + i] == Value(Fee(FeePrescale), i)
  {
    EachAt(FeeLine, 7, 1, i, 0);
  }

  lemma LatencyAt()
    ensures StandsAt(145, Value(Hps(HpsLatency), 0))
  {
    InHps(6, 0);
  }

  lemma OnePart(part: seq<Line>, block: nat -> seq<Line>, n: nat, i: nat)
    requires part == Each(block, n) && i < n && forall k: nat :: k < n ==> |block(k)| == 1
    ensures |part| == n && part[i] == block(i)[0]
  {
    EachAt(block, n, 1, i, 0);
  }

  lemma PrescaleAt(i: nat)
    requires i < 32
    ensures StandsAt(146 + i, Value(Hps(HpsPrescale), i))
  {
    var p := 7;
    InHps(p, i);
    OnePart(HpsPart(p), PrescaleLine, 32, i);
  }

  /** The line at `place` of the HPS listing is the item's text. */
  ghost predicate Reads(c: Conf, place: nat, item: Item)
    requires Shaped(c)
  {
    && |HpsLines()| == 178 && place < 178
    && Good(HpsLines()[place]) && Shows(c, HpsLines()[place], item)
  }

  lemma ReadsThere(c: Conf, place: nat, x: Line, item: Item)
    requires Shaped(c) && StandsAt(place, x) && Good(x) && Shows(c, x, item)
    ensures Reads(c, place, item)
  {
  }

  /** The HPS listing: the pair triggers, printed again behind the single triggers; the calibration lines
      between; then the multiplicity triggers, the FEE trigger, the latency and the prescales. */
  lemma PairsListed(c: Conf, i: nat, j: nat)
    requires Shaped(c) && i < 4 && j < 10
    ensures |PairItems(c.hps.pairs[i], i)| == 10
    ensures var x := PairItems(c.hps.pairs[i], i)[j]; Reads(c, 10 * i + j, x) && Reads(c, 82 + (10 * i + j), x)
  {
    PairsAt(i, j);
    PairShows(c, i, j);
  }

  lemma SinglesListed(c: Conf, i: nat, j: nat)
    requires Shaped(c) && i < 4 && j < 7
    ensures |SingleItems(c.hps.singles[i], i)| == 7 && Reads(c, 54 + (7 * i + j), SingleItems(c.hps.singles[i], i)[j])
  {
    SinglesAt(i, j);
    SingleShows(c, i, j);
  }

  lemma MultsListed(c: Conf, i: nat, j: nat)
    requires Shaped(c) && i < 2 && j < 6
    ensures |MultItems(c.hps.mults[i], i)| == 6 && Reads(c, 122 + (6 * i + j), MultItems(c.hps.mults[i], i)[j])
  {
    MultsAt(i, j);
    MultShows(c, i, j);
  }

  lemma CalibListed(c: Conf, j: nat)
    requires Shaped(c) && j < 14
    ensures |CalibItems(c.fthodoEmin, c.hps)| == 14 && Reads(c, 40 + j, CalibItems(c.fthodoEmin, c.hps)[j])
  {
    CalibAt(j);
    CalibShows(c, j);
  }

  lemma FeeListed(c: Conf, j: nat)
    requires Shaped(c) && j < 4
    ensures Reads(c, 134 + j, FeeItems(c.hps.fee)[j])
  {
    FeeAt(j);
    FeeShows(c, j);
  }

  lemma RegionListed(c: Conf, i: nat)
    requires Shaped(c) && i < 7
    ensures Reads(c, 138 + i, RegionItem(c.hps.fee, i))
  {
    FeeAt(4 + i);
    RegionAt(i);
    RegionShows(c, i);
  }

  lemma LatencyListed(c: Conf)
    requires Shaped(c)
    ensures Reads(c, 145, LatencyItem(c.hps))
  {
    LatencyAt();
    LatencyShows(c);
    ReadsThere(c, 145, Value(Hps(HpsLatency), 0), LatencyItem(c.hps));
  }

  lemma PrescaleListed(c: Conf, i: nat)
    requires Shaped(c) && i < 32
    ensures Reads(c, 146 + i, PrescaleItem(c.hps, i))
  {
    PrescaleAt(i);
    PrescaleShows(c, i);
    ReadsThere(c, 146 + i, Value(Hps(HpsPrescale), i), PrescaleItem(c.hps, i));
  }
}
