/** `vtpPayloadConfig` and the Prestart loop that calls it for each enabled payload. */
module PayloadPorts {
  import opened Bits

  datatype PpConf = PpConf(moduleId: int, laneInfo: nat, bankInfo: nat, streamInfo: nat)

  const ERROR: int := -1

  /** Lanes 1..4 with a bank of their own, as the module mask. */
  function BankModules(bank: nat): nat {
    (if bank % 4 > 0 then 0x100 else 0)
    + (if bank / 0x100 % 4 > 0 then 0x200 else 0)
    + (if bank / 0x1_0000 % 4 > 0 then 0x400 else 0)
    + (if bank / 0x100_0000 % 4 > 0 then 0x800 else 0)
  }

  function Configured(port: seq<PpConf>): (c: seq<bool>)
    ensures |c| == |port|
  {
    seq(|port|, i requires 0 <= i < |port| => port[i].moduleId != 0)
  }

  /** The bits of `mask` are the entries of `set`. */
  ghost predicate MaskOf(mask: nat, members: seq<bool>) {
    forall k: nat :: Bit(mask, k) <==> k < |members| && members[k]
  }

  /** Payloads enabled before `p`, counting from 0. */
  function Ones(enable: seq<int>, p: nat): (n: nat)
    requires p <= |enable|
    ensures n <= p
  {
    if p == 0 then 0 else Ones(enable, p - 1) + if enable[p - 1] == 1 then 1 else 0
  }

  lemma {:induction false} OnesMonotone(enable: seq<int>, p: nat, q: nat)
    requires p <= q <= |enable|
    ensures Ones(enable, p) <= Ones(enable, q)
    decreases q
  {
    if p < q {
      OnesMonotone(enable, p, q - 1);
    }
  }

  /** An enabled payload with fewer than nine enabled ones before it. */
  predicate Selected(enable: seq<int>, p: nat)
    requires p < |enable|
  {
    enable[p] == 1 && Ones(enable, p) < 9
  }

  /** Nothing if nothing is enabled, else what was configured before and the selected payloads. */
  function PrestartPorts(enable: seq<int>, before: seq<bool>): (ports: seq<bool>)
    requires |enable| == |before| == 16
    ensures |ports| == 16
  {
    seq(16, p requires 0 <= p < 16 => (Ones(enable, 16) > 0 && before[p]) || Selected(enable, p))
  }

  lemma {:induction false} SomeSelected(enable: seq<int>, n: nat)
    requires n <= |enable| && Ones(enable, n) > 0
    ensures exists p :: 0 <= p < n && Selected(enable, p)
    decreases n
  {
    if Ones(enable, n - 1) > 0 {
      SomeSelected(enable, n - 1);
    } else {
      assert Selected(enable, n - 1);
    }
  }

  /** The first `n` ports, of which at most the last is the ninth enabled, hold all the selected ones. */
  lemma SelectedEarly(enable: seq<int>, n: nat, p: nat)
    requires |enable| == 16 && n <= 16 && p < 16
    requires n > 0 ==> Ones(enable, n - 1) <= 8
    requires n < 16 ==> Ones(enable, n) == 9
    ensures Selected(enable, p) <==> p < n && enable[p] == 1
  {
    if p < n {
      OnesMonotone(enable, p, n - 1);
    } else {
      OnesMonotone(enable, n, p);
    }
  }

  lemma PortsDone(enable: seq<int>, n: nat, before: seq<PpConf>, after: seq<PpConf>, mask: nat)
    requires |enable| == |before| == |after| == 16 && n <= 16
    requires n > 0 ==> Ones(enable, n - 1) <= 8
    requires n < 16 ==> Ones(enable, n) == 9
    requires forall p :: 0 <= p < 16 ==>
               after[p] == if p < n && enable[p] == 1 then PpConf(1, 1, 0, 1) else before[p]
    requires forall k: nat :: Bit(mask, k) <==> k < 16 && Ones(enable, n) > 0 && after[k].moduleId != 0
    ensures MaskOf(mask, PrestartPorts(enable, Configured(before)))
    ensures forall p :: 0 <= p < 16 ==>
              after[p] == if Selected(enable, p) then PpConf(1, 1, 0, 1) else before[p]
  {
    forall p: nat | p < 16 ensures Selected(enable, p) <==> p < n && enable[p] == 1 {
      SelectedEarly(enable, n, p);
    }
    OnesMonotone(enable, n, 16);
    if Ones(enable, n) > 0 {
      SomeSelected(enable, n);
    }
    var ports := PrestartPorts(enable, Configured(before));
    forall k: nat ensures Bit(mask, k) <==> k < |ports| && ports[k] {
      if k < 16 && Selected(enable, k) {
        OnesMonotone(enable, k + 1, n);
      }
    }
  }

  /** Starting from cleared ports the mask is the selected payloads and nothing else. */
  lemma FromCleared(enable: seq<int>, before: seq<bool>, mask: nat, p: nat)
    requires |enable| == |before| == 16 && forall q :: 0 <= q < 16 ==> !before[q]
    requires MaskOf(mask, PrestartPorts(enable, before))
    ensures Bit(mask, p) <==> p < 16 && Selected(enable, p)
  {
  }

  /** When ports left from an earlier run do not show: none of them is outside the selection, or
      nothing is enabled at all. */
  lemma StaleIff(enable: seq<int>, before: seq<bool>, mask: nat)
    requires |enable| == |before| == 16 && MaskOf(mask, PrestartPorts(enable, before))
    ensures (forall p: nat :: Bit(mask, p) <==> p < 16 && Selected(enable, p))
         <==> Ones(enable, 16) == 0 || forall p :: 0 <= p < 16 && before[p] ==> Selected(enable, p)
  {
    if Ones(enable, 16) > 0 && exists p :: 0 <= p < 16 && before[p] && !Selected(enable, p) {
      var p: nat :| p < 16 && before[p] && !Selected(enable, p);
      assert Bit(mask, p);
    }
  }

  lemma OrBits(a: nat, b: nat)
    ensures forall k: nat :: Bit(Or(a, b), k) <==> Bit(a, k) || Bit(b, k)
  {
    forall k: nat ensures Bit(Or(a, b), k) <==> Bit(a, k) || Bit(b, k) {
      OrBit(a, b, k);
    }
  }

  lemma NoBits()
    ensures forall k: nat :: !Bit(0, k)
  {
    forall k: nat ensures !Bit(0, k) {
      ZeroBit(k);
    }
  }

  class Ports {
    const ppInfo: array<PpConf>

    ghost predicate Valid() {
      ppInfo.Length == 16
    }

    constructor (ppc: array<PpConf>)
      requires ppc.Length == 16
      ensures Valid() && ppInfo == ppc
    {
      ppInfo := ppc;
    }

    method PayloadConfig(port: int, moduleId: int, lag: nat, bank: nat, stream: nat) returns (r: int)
      requires Valid()
      modifies ppInfo
      ensures r == ERROR <==> !(1 <= port <= 16) || (bank == 0 && stream == 0)
      ensures r == ERROR ==> ppInfo[..] == old(ppInfo[..])
      ensures r != ERROR ==>
        && r >= 0 && MaskOf(r, Configured(ppInfo[..]))
        && ppInfo[..] == old(ppInfo[..])[port - 1 :=
             PpConf(moduleId, if lag == 0 then BankModules(bank) else lag % 0x100, bank,
                    if stream <= 4 then stream else 0)]
    {
      if port < 1 || port > 16 {
        return ERROR;
      }
      if bank == 0 && stream == 0 {
        return ERROR;
      }
      ppInfo[port - 1] := PpConf(moduleId, if lag == 0 then BankModules(bank) else lag % 0x100, bank,
                                 if 0 < stream <= 4 then stream else 0);
      var mask: nat := 0;
      var ii := 0;
      NoBits();
      while ii < 16
        invariant 0 <= ii <= 16
        invariant forall k: nat :: Bit(mask, k) <==> k < ii && ppInfo[k].moduleId != 0
      {
        if ppInfo[ii].moduleId != 0 {
          ghost var was := mask;
          mask := Or(mask, Pow2(ii));
          forall k: nat ensures Bit(mask, k) <==> Bit(was, k) || k == ii {
            OrBit(was, Pow2(ii), k);
            Pow2Bit(ii, k);
          }
        }
        ii := ii + 1;
      }
      r := mask;
    }

    /** The loop over `VTP_PAYLOAD_EN` in Prestart. */
    method Prestart(enable: seq<int>) returns (ppmask: nat)
      requires Valid() && |enable| == 16
      modifies ppInfo
      ensures MaskOf(ppmask, PrestartPorts(enable, Configured(old(ppInfo[..]))))
      ensures forall p :: 0 <= p < 16 ==>
        ppInfo[p] == if Selected(enable, p) then PpConf(1, 1, 0, 1) else old(ppInfo[p])
    {
      ppmask := 0;
      var active := 0;
      var num := 1;
      NoBits();
      while num <= 16
        invariant 1 <= num <= 17 && active == Ones(enable, num - 1) <= 8
        invariant forall p :: 0 <= p < 16 ==>
          ppInfo[p] == if p < num - 1 && enable[p] == 1 then PpConf(1, 1, 0, 1) else old(ppInfo[p])
        invariant forall k: nat :: Bit(ppmask, k) <==>
          k < 16 && active > 0 && ppInfo[k].moduleId != 0
      {
        if enable[num - 1] == 1 {
          var mask := PayloadConfig(num, 1, 1, 0, 1);
          ghost var was := ppmask;
          ppmask := Or(ppmask, mask);
          OrBits(was, mask);
          active := active + 1;
          if active > 8 {
            num := num + 1;
            break;
          }
        }
        num := num + 1;
      }
      PortsDone(enable, num - 1, old(ppInfo[..]), ppInfo[..], ppmask);
    }
  }

  /** Bit 8 + k of the module mask says that lane k has a bank, one of two bits in its byte. */
  lemma LaneBits(bank: nat, k: nat)
    requires k < 4
    ensures var lanes := [bank, bank / 256, bank / 65536, bank / 16777216];
            Bit(BankModules(bank), 8 + k) <==> lanes[k] % 4 != 0
    ensures BankModules(bank) < 4096 && BankModules(bank) % 256 == 0
  {
    var b0, b1 := bank % 4 > 0, bank / 0x100 % 4 > 0;
    var b2, b3 := bank / 0x1_0000 % 4 > 0, bank / 0x100_0000 % 4 > 0;
    FourBits(b0, b1, b2, b3, k);
  }

  lemma FourBits(b0: bool, b1: bool, b2: bool, b3: bool, k: nat)
    requires k < 4
    ensures var n := (if b0 then 0x100 else 0) + (if b1 then 0x200 else 0) + (if b2 then 0x400 else 0)
                     + (if b3 then 0x800 else 0);
            Bit(n, 8 + k) <==> if k == 0 then b0 else if k == 1 then b1 else if k == 2 then b2 else b3
  {
    var m := (if b0 then 1 else 0) + (if b1 then 2 else 0) + (if b2 then 4 else 0) + (if b3 then 8 else 0);
    HighBits(m, 8, k);
    assert Pow2(8) == 256 by {
      assert Pow2(4) == 16;
    }
    assert Bit(m, 0) == b0 && Bit(m / 2, 0) == b1 && Bit(m / 4, 0) == b2 && Bit(m / 8, 0) == b3;
    assert Bit(m, 1) == Bit(m / 2, 0) && Bit(m, 2) == Bit(m / 2, 1) == Bit(m / 4, 0);
    assert Bit(m, 3) == Bit(m / 2, 2) == Bit(m / 4, 1) == Bit(m / 8, 0);
  }

  lemma {:induction false} HighBits(m: nat, shift: nat, k: nat)
    ensures Bit(m * Pow2(shift), shift + k) <==> Bit(m, k)
  {
    if shift > 0 {
      HighBits(m, shift - 1, k);
      assert m * Pow2(shift) == 2 * (m * Pow2(shift - 1));
    }
  }
}
