/**
 The configuration file `generate_vtp_config` writes, as the reader takes it, and the whole way from
 the pedestal file's slots to the payload mask.
 */
module GeneratedConfig {
  import opened Options
  import opened Bits
  import opened Text
  import opened ConfigKeys
  import opened ConfigStore
  import opened ConfigReader
  import ConfigPrinter
  import ConfigInvariant
  import opened SlotTable
  import opened PayloadPorts

  /** A line of the generated file: empty, a comment, or a keyword and what follows it. */
  datatype GenLine = Blank | Comment(text: string) | Entry(word: string, tail: string)

  function LineOf(x: GenLine): string {
    match x
    case Blank => "\n"
    case Comment(text) => "#" + (text + "\n")
    case Entry(word, tail) => word + (tail + "\n")
  }

  ghost predicate Good(x: GenLine) {
    match x
    case Blank => true
    case Comment(text) => OneLine(text)
    case Entry(word, tail) =>
      && word != "" && word[0] == 'V' && AllIn(word, NonSpace)
      && Ends(tail) && OneLine(tail) && |word| + |tail| <= 248
  }

  ghost predicate AllGood(lines: seq<GenLine>) {
    forall j :: 0 <= j < |lines| ==> Good(lines[j])
  }

  function FileOf(lines: seq<GenLine>): string {
    if lines == [] then "" else LineOf(lines[0]) + FileOf(lines[1..])
  }

  function Entries(lines: seq<GenLine>): seq<string> {
    if lines == [] then []
    else (if lines[0].Entry? then [LineOf(lines[0])] else []) + Entries(lines[1..])
  }

  lemma EntryWhole(x: GenLine)
    requires Good(x) && x.Entry?
    ensures ConfigPrinter.WholeLine(LineOf(x))
  {
    assert OneLine(x.word);
    ConfigPrinter.Joined(x.word, x.tail);
  }

  lemma SkippedComment(text: string, rest: string)
    requires OneLine(text)
    ensures Split("#" + (text + "\n") + rest) == Split(rest)
  {
    var s := "#" + (text + "\n") + rest;
    var t := text + "\n" + rest;
    assert s[0] == '#' && s[1..] == t;
    LineLengthIs(text, rest);
    assert t[|text|] == '\n';
    assert s[1 + (|text| + 1)..] == rest;
  }

  lemma SkippedBlank(rest: string)
    ensures Split("\n" + rest) == Split(rest)
  {
    assert ("\n" + rest)[1..] == rest;
  }

  /** The reader sees the entries and none of the rest. */
  lemma {:induction false} SplitFile(lines: seq<GenLine>)
    requires AllGood(lines)
    ensures Split(FileOf(lines)) == Pieces(Entries(lines), true)
    decreases |lines|
  {
    if lines != [] {
      SplitFile(lines[1..]);
      var rest := FileOf(lines[1..]);
      match lines[0]
      case Blank => SkippedBlank(rest);
      case Comment(text) => SkippedComment(text, rest);
      case Entry(word, tail) =>
        EntryWhole(lines[0]);
        ConfigPrinter.SplitFirst(LineOf(lines[0]), rest);
    }
  }

  lemma {:induction false} EntriesAppend(a: seq<GenLine>, b: seq<GenLine>)
    ensures Entries(a + b) == Entries(a) + Entries(b)
    decreases |a|
  {
    if a == [] {
      assert a + b == b;
    } else {
      assert (a + b)[1..] == a[1..] + b;
      EntriesAppend(a[1..], b);
    }
  }

  lemma {:induction false} ReadAppend(r: Reader, host: string, a: seq<string>, b: seq<string>)
    requires ShapedCore(r.core)
    ensures var (mid, code) := ReadLines(r, host, a);
            ReadLines(r, host, a + b) == if code != 0 then (mid, code) else ReadLines(mid, host, b)
    decreases |a|
  {
    if a == [] {
      assert a + b == b;
    } else {
      assert (a + b)[1..] == a[1..] + b;
      var (next, code) := ReadLine(r, host, a[0]);
      if code == 0 {
        ReadAppend(next, host, a[1..], b);
      }
    }
  }

  // ---------------------------------------------------------------- lines before and after

  /** The keywords the generator writes between the crate line and the payload line. */
  const PREAMBLE: seq<string> :=
    ["VTP_FIRMWARE_Z7", "VTP_FIRMWARE_V7", "VTP_STATS_HOST", "VTP_STATS_PORT", "VTP_STATS_INST",
     "VTP_SYNC_PKT_LEN", "VTP_NUM_CONNECTIONS", "VTP_NET_MODE", "VTP_ENABLE_EJFAT", "VTP_LOCAL_PORT"]

  const PAYLOAD: string := "VTP_PAYLOAD_EN"

  ghost predicate IsPreamble(lines: seq<GenLine>) {
    AllGood(lines) && forall j :: 0 <= j < |lines| && lines[j].Entry? ==> lines[j].word in PREAMBLE
  }

  /** Any further lines, if they neither name a crate nor set the payloads again. */
  ghost predicate IsTail(lines: seq<GenLine>) {
    && AllGood(lines)
    && forall j :: 0 <= j < |lines| && lines[j].Entry? ==> lines[j].word != CRATE && lines[j].word != PAYLOAD
  }

  lemma {:induction false} FindSound(w: string, keys: seq<Key>)
    ensures Find(w, keys).Some? ==> Name(Find(w, keys).value) == w && Find(w, keys).value in keys
    decreases |keys|
  {
    if keys != [] {
      FindSound(w, keys[1..]);
    }
  }

  lemma CheckedLetters(c: CheckedKey)
    ensures var s := CheckedSuffix(c); |s| >= 3 && (s[0] in "DC" || (s[0] == 'S' && s[2] == 'R'))
  {
  }

  /** Letters that tell the other keywords from those of the preamble. */
  lemma OtherKeyLetters(k: Key)
    requires !k.Setting?
    ensures var n := Name(k);
            |n| >= 7 && (n[4] in "GHPCD" || (n[4] == 'F' && n[6] in "HB") || (n[4] == 'S' && n[6] == 'R'))
  {
    match k
    case Checked(c) =>
      CheckedLetters(c);
      var s := CheckedSuffix(c);
      assert Name(k)[4] == s[0] && Name(k)[6] == s[2];
    case FiberEn =>
    case SlotEn =>
    case ComptonMask =>
    case GtTrgbit =>
    case GtTrgbit2 =>
    case FthodoEmin => assert Name(k)[4] == 'F' && Name(k)[6] == 'H';
    case Gt(_) => GroupLetters(k);
    case Pair(_) => GroupLetters(k);
    case Single(_) => GroupLetters(k);
    case Mult(_) => GroupLetters(k);
    case Fee(_) => GroupLetters(k);
    case Hps(_) => GroupLetters(k);
    case PayloadEn => GroupLetters(k);
  }

  lemma PreambleLetters(w: string)
    requires w in PREAMBLE
    ensures w != CRATE && |w| >= 7
    ensures w[4] in "NEL" || (w[4] == 'F' && w[6] == 'R') || (w[4] == 'S' && w[6] in "AN")
  {
  }

  lemma PreambleKey(w: string)
    requires w in PREAMBLE
    ensures KeyOf(w).Some? ==> KeyOf(w).value.Setting?
  {
    PreambleLetters(w);
    FindSound(w, PRINTED_KEYS + OTHER_KEYS);
    if KeyOf(w).Some? && !KeyOf(w).value.Setting? {
      OtherKeyLetters(KeyOf(w).value);
    }
  }

  lemma SettingGoesOn(c: Core, t: SettingKey, a: seq<Arg>)
    requires ShapedCore(c)
    ensures StoreKey(c, Setting(t), a).1 == 0
  {
  }

  /** Preamble keywords set a streaming field or nothing the model has; none can fail. */
  lemma PreambleHarmless(c: Core, w: string, text: string)
    requires ShapedCore(c) && w in PREAMBLE
    ensures w != CRATE && StoreLine(c, w, text).1 == 0
  {
    PreambleLetters(w);
    PreambleKey(w);
    if KeyOf(w).Some? {
      SettingGoesOn(c, KeyOf(w).value.t, ScanArgs(Arguments(text), Kinds(KeyOf(w).value)));
    }
  }

  lemma {:induction false} PreambleRead(r: Reader, host: string, lines: seq<GenLine>)
    requires ShapedCore(r.core) && r.gate.active && IsPreamble(lines)
    ensures var (after, code) := ReadLines(r, host, Entries(lines));
            code == 0 && after.gate.active
    decreases |lines|
  {
    if lines != [] {
      var x := lines[0];
      var rest := Entries(lines[1..]);
      if x.Entry? {
        var texts := [LineOf(x)] + rest;
        assert texts[1..] == rest;
        PreambleHarmless(r.core, x.word, LineOf(x));
        ConfigPrinter.WordLine(r, host, x.word, x.tail + "\n");
        PreambleRead(ReadLine(r, host, LineOf(x)).0, host, lines[1..]);
      } else {
        assert Entries(lines) == rest;
        PreambleRead(r, host, lines[1..]);
      }
    }
  }

  ghost predicate SamePayload(c: Conf, d: Conf) {
    c.payloadEn == d.payloadEn && c.streaming.payloadEnArray == d.streaming.payloadEnArray
  }

  lemma SettingKeepsPayload(c: Core, t: SettingKey, a: seq<Arg>)
    requires ShapedCore(c)
    ensures SamePayload(StoreKey(c, Setting(t), a).0.conf, c.conf)
  {
  }

  /** Only the payload keyword sets the payloads. */
  lemma OtherLineKeeps(c: Core, w: string, text: string)
    requires ShapedCore(c) && w != PAYLOAD
    ensures SamePayload(StoreLine(c, w, text).0.conf, c.conf)
  {
    FindSound(w, PRINTED_KEYS + OTHER_KEYS);
    if KeyOf(w).Some? {
      var k := KeyOf(w).value;
      var a := ScanArgs(Arguments(text), Kinds(k));
      if k.Setting? {
        SettingKeepsPayload(c, k.t, a);
      } else {
        ConfigInvariant.TriggerKeeps(c, k, a);
      }
    }
  }

  lemma {:induction false} TailRead(r: Reader, host: string, lines: seq<GenLine>)
    requires ShapedCore(r.core) && r.gate.active && IsTail(lines)
    ensures SamePayload(ReadLines(r, host, Entries(lines)).0.core.conf, r.core.conf)
    decreases |lines|
  {
    if lines != [] {
      var x := lines[0];
      var rest := Entries(lines[1..]);
      if x.Entry? {
        var texts := [LineOf(x)] + rest;
        assert texts[1..] == rest;
        OtherLineKeeps(r.core, x.word, LineOf(x));
        ConfigPrinter.WordLine(r, host, x.word, x.tail + "\n");
        var (next, code) := ReadLine(r, host, LineOf(x));
        if code == 0 {
          TailRead(next, host, lines[1..]);
        }
      } else {
        assert Entries(lines) == rest;
        TailRead(r, host, lines[1..]);
      }
    }
  }

  // ---------------------------------------------------------------- the payload line

  type Digits = int -> string

  function PaddedBy(show: Digits, a: seq<int>): string {
    if a == [] then "" else "  " + show(a[0]) + PaddedBy(show, a[1..])
  }

  /** Each entry behind two spaces. */
  function Padded(a: seq<int>): string {
    PaddedBy(DecText, a)
  }

  function Nums(a: seq<int>): (n: seq<Arg>)
    ensures |n| == |a|
  {
    seq(|a|, i requires 0 <= i < |a| => Num(a[i]))
  }

  ghost predicate Flags(a: seq<int>) {
    forall i :: 0 <= i < |a| ==> a[i] == 0 || a[i] == 1
  }

  lemma SkipTwo(x: string)
    requires x != "" && !IsSpace(x[0])
    ensures SkipSpace("  " + x) == x
  {
    SpanExact("  ", x, Space);
  }

  lemma ScanPadded(v: int, tail: string)
    requires -0x8000_0000 <= v <= 0x7fff_ffff && Ends(tail)
    ensures ScanInt("  " + DecText(v) + tail) == Some((v, tail))
  {
    IntThere(v, tail);
    var x := DecText(v) + tail;
    assert x[0] == DecText(v)[0];
    SkipTwo(x);
    assert "  " + DecText(v) + tail == "  " + x;
  }

  lemma PaddedFirst(show: Digits, a: seq<int>, tail: string)
    requires a != []
    ensures PaddedBy(show, a) + tail == "  " + show(a[0]) + (PaddedBy(show, a[1..]) + tail)
  {
  }

  lemma PaddedEnds(show: Digits, a: seq<int>, tail: string)
    requires Ends(tail)
    ensures Ends(PaddedBy(show, a) + tail)
  {
    if a == [] {
      assert PaddedBy(show, a) + tail == tail;
    } else {
      assert (PaddedBy(show, a) + tail)[0] == ' ';
    }
  }

  /** `scan` takes an entry and the spaces before it. */
  ghost predicate TakesPadded(scan: Scanner, show: Digits) {
    forall v, tail: string :: 0 <= v <= 1 && Ends(tail) ==> scan(D, "  " + show(v) + tail) == Some((Num(v), tail))
  }

  lemma OneScanned(scan: Scanner, text: string, n: nat, v: int, rest: string)
    requires n > 0 && scan(D, text) == Some((Num(v), rest))
    ensures ScanSeq(scan, text, Ints(n)) == [Num(v)] + ScanSeq(scan, rest, Ints(n - 1))
  {
    assert Ints(n)[1..] == Ints(n - 1);
  }

  lemma NumsFirst(a: seq<int>)
    requires a != []
    ensures Nums(a) == [Num(a[0])] + Nums(a[1..]) && |a[1..]| == |a| - 1
  {
  }

  lemma {:induction false} PaddedSeq(scan: Scanner, show: Digits, a: seq<int>, tail: string)
    requires TakesPadded(scan, show) && Flags(a) && Ends(tail)
    ensures ScanSeq(scan, PaddedBy(show, a) + tail, Ints(|a|)) == Nums(a)
    decreases |a|
  {
    if a != [] {
      var rest := PaddedBy(show, a[1..]) + tail;
      PaddedFirst(show, a, tail);
      PaddedEnds(show, a[1..], tail);
      OneScanned(scan, PaddedBy(show, a) + tail, |a|, a[0], rest);
      PaddedSeq(scan, show, a[1..], tail);
      NumsFirst(a);
    }
  }

  lemma PaddedBack(a: seq<int>, tail: string)
    requires Flags(a) && Ends(tail)
    ensures ScanArgs(Padded(a) + tail, Ints(|a|)) == Nums(a)
  {
    assert TakesPadded(ScanOne, DecText) by {
      forall v, tail: string | 0 <= v <= 1 && Ends(tail)
        ensures ScanOne(D, "  " + DecText(v) + tail) == Some((Num(v), tail))
      {
        ScanPadded(v, tail);
      }
    }
    PaddedSeq(ScanOne, DecText, a, tail);
  }

  lemma {:induction false} PaddedShort(show: Digits, a: seq<int>)
    requires Flags(a) && forall v :: 0 <= v <= 1 ==> |show(v)| == 1 && OneLine(show(v))
    ensures OneLine(PaddedBy(show, a)) && |PaddedBy(show, a)| == 3 * |a|
    decreases |a|
  {
    if a != [] {
      PaddedShort(show, a[1..]);
    }
  }

  function PayloadLine(enable: seq<int>): GenLine {
    Entry(PAYLOAD, Padded(enable))
  }

  lemma PayloadGood(enable: seq<int>)
    requires Flags(enable) && |enable| == 16
    ensures Good(PayloadLine(enable))
  {
    assert DecText(0) == "0" && DecText(1) == "1";
    PaddedShort(DecText, enable);
    PaddedEnds(DecText, enable, "");
    assert Padded(enable) + "" == Padded(enable);
    NameBare(PayloadEn);
    BareIsWord(PAYLOAD);
  }

  lemma PayloadKeyStored(c: Core, a: seq<Arg>, msk: seq<int>)
    requires ShapedCore(c) && msk == Overlay(c.msk, a) && MaskBits(msk, |msk|)
    ensures var (after, code) := StoreKey(c, PayloadEn, a);
            && code == 0 && after.conf.streaming.payloadEnArray == msk
            && after.conf.payloadEn == MaskValue(msk, |msk|)
  {
  }

  /** The array is `enable` and the word its weighted sum. */
  ghost predicate PayloadIs(c: Conf, enable: seq<int>) {
    c.streaming.payloadEnArray == enable && c.payloadEn == Weight(enable, |enable|)
  }

  lemma PayloadStored(c: Core, enable: seq<int>)
    requires ShapedCore(c) && Flags(enable) && |enable| == 16
    ensures var (after, code) := StoreKey(c, PayloadEn, Nums(enable));
            code == 0 && PayloadIs(after.conf, enable)
  {
    assert Overlay(c.msk, Nums(enable)) == enable;
    PayloadKeyStored(c, Nums(enable), enable);
    MaskIsWeight(enable, |enable|);
  }

  lemma PayloadArgs(enable: seq<int>)
    requires Flags(enable) && |enable| == 16
    ensures Ends(Padded(enable) + "\n") && ScanArgs(Padded(enable) + "\n", Kinds(PayloadEn)) == Nums(enable)
  {
    PaddedEnds(DecText, enable, "\n");
    PaddedBack(enable, "\n");
  }

  lemma PayloadWord(r: Reader, host: string, tail: string, args: seq<Arg>)
    requires ShapedCore(r.core) && r.gate.active && Ends(tail) && ScanArgs(tail, Kinds(PayloadEn)) == args
    ensures var (after, code) := ReadLine(r, host, PAYLOAD + tail);
            after.gate.active && (after.core, code) == StoreKey(r.core, PayloadEn, args)
  {
    NameBare(PayloadEn);
    BareIsWord(PAYLOAD);
    KeyOfName(PayloadEn);
    ConfigPrinter.WordLine(r, host, PAYLOAD, tail);
  }

  lemma PayloadTail(r: Reader, host: string, tail: string, enable: seq<int>)
    requires ShapedCore(r.core) && r.gate.active && Flags(enable) && |enable| == 16
    requires Ends(tail) && ScanArgs(tail, Kinds(PayloadEn)) == Nums(enable)
    ensures var (after, code) := ReadLine(r, host, PAYLOAD + tail);
            code == 0 && after.gate.active && PayloadIs(after.core.conf, enable)
  {
    PayloadWord(r, host, tail, Nums(enable));
    PayloadStored(r.core, enable);
  }

  /** The line written for an array is read as that array and its weighted sum. */
  lemma PayloadRead(r: Reader, host: string, enable: seq<int>)
    requires ShapedCore(r.core) && r.gate.active && Flags(enable) && |enable| == 16
    ensures var (after, code) := ReadLine(r, host, LineOf(PayloadLine(enable)));
            code == 0 && after.gate.active && PayloadIs(after.core.conf, enable)
  {
    PayloadArgs(enable);
    PayloadTail(r, host, Padded(enable) + "\n", enable);
  }

  // ---------------------------------------------------------------- the whole file

  function GeneratedFile(rocName: string, preamble: seq<GenLine>, enable: seq<int>, tail: seq<GenLine>): seq<GenLine> {
    [Entry(CRATE, " " + (rocName + "vtp"))] + preamble + [PayloadLine(enable)] + tail
  }

  /** Letters, digits, underscore and minus, short enough for the reader's buffers. */
  ghost predicate RocName(r: string) {
    && 0 < |r| < 77
    && forall i :: 0 <= i < |r| ==> NameChar(r[i])
  }

  predicate NameChar(c: char) {
    '0' <= c <= '9' || 'A' <= c <= 'Z' || 'a' <= c <= 'z' || c == '_' || c == '-'
  }

  lemma CrateGood(r: string)
    requires RocName(r)
    ensures ConfigPrinter.CrateName(r + "vtp", r + "vtp")
    ensures Good(Entry(CRATE, " " + (r + "vtp")))
    ensures LineOf(Entry(CRATE, " " + (r + "vtp"))) == ConfigPrinter.CrateLine(r + "vtp")
  {
  }

  lemma FileGood(rocName: string, preamble: seq<GenLine>, enable: seq<int>, tail: seq<GenLine>)
    requires RocName(rocName) && IsPreamble(preamble) && IsTail(tail) && Flags(enable) && |enable| == 16
    ensures AllGood(GeneratedFile(rocName, preamble, enable, tail))
    ensures Entries(GeneratedFile(rocName, preamble, enable, tail))
         == [ConfigPrinter.CrateLine(rocName + "vtp")]
            + (Entries(preamble) + ([LineOf(PayloadLine(enable))] + Entries(tail)))
  {
    CrateGood(rocName);
    PayloadGood(enable);
    var crate := Entry(CRATE, " " + (rocName + "vtp"));
    var payload := PayloadLine(enable);
    assert GeneratedFile(rocName, preamble, enable, tail) == [crate] + (preamble + ([payload] + tail));
    EntriesAppend([crate], preamble + ([payload] + tail));
    EntriesAppend(preamble, [payload] + tail);
    EntriesAppend([payload], tail);
    assert Entries([crate]) == [LineOf(crate)] + [] && Entries([payload]) == [LineOf(payload)] + [];
  }

  lemma FileLines(r: Reader, host: string, preamble: seq<GenLine>, enable: seq<int>, tail: seq<GenLine>)
    requires ShapedCore(r.core) && ConfigPrinter.CrateName(host, host)
    requires IsPreamble(preamble) && IsTail(tail) && Flags(enable) && |enable| == 16
    ensures var (after, code) := ReadLines(r, host,
              [ConfigPrinter.CrateLine(host)] + (Entries(preamble) + ([LineOf(PayloadLine(enable))] + Entries(tail))));
            PayloadIs(after.core.conf, enable)
  {
    var end := [LineOf(PayloadLine(enable))] + Entries(tail);
    var rest := Entries(preamble) + end;
    ConfigPrinter.CrateActivates(r, host, host);
    assert ([ConfigPrinter.CrateLine(host)] + rest)[1..] == rest;
    var active := ReadLine(r, host, ConfigPrinter.CrateLine(host)).0;
    PreambleRead(active, host, preamble);
    ReadAppend(active, host, Entries(preamble), end);
    var mid := ReadLines(active, host, Entries(preamble)).0;
    PayloadRead(mid, host, enable);
    assert end[1..] == Entries(tail);
    TailRead(ReadLine(mid, host, end[0]).0, host, tail);
  }

  /** On the host it was written for, the generated file activates the reader and sets the payloads. */
  lemma FileRead(r: Reader, rocName: string, preamble: seq<GenLine>, enable: seq<int>, tail: seq<GenLine>)
    requires ShapedCore(r.core) && RocName(rocName)
    requires IsPreamble(preamble) && IsTail(tail) && Flags(enable) && |enable| == 16
    ensures var o := ReadText(r, rocName + "vtp", FileOf(GeneratedFile(rocName, preamble, enable, tail)));
            o.Returned? && PayloadIs(o.reader.core.conf, enable)
  {
    FileGood(rocName, preamble, enable, tail);
    SplitFile(GeneratedFile(rocName, preamble, enable, tail));
    CrateGood(rocName);
    FileLines(r, rocName + "vtp", preamble, enable, tail);
  }

  // ---------------------------------------------------------------- from slots to the mask

  /** The slot of payload `p + 1` is among the first twenty different slots of the pedestal file: 10, 9,
      8 .. 3 for the odd payloads, 13, 14 .. 20 for the even ones. */
  ghost predicate Listed(peds: string, p: nat)
    requires p < 16
  {
    AmongFirst(SlotValues(peds), 20, if p % 2 == 0 then 10 - p / 2 else 13 + p / 2)
  }

  /** How many payloads before `p` are listed. */
  ghost function ListedBefore(peds: string, p: nat): nat
    requires p <= 16
  {
    if p == 0 then 0 else ListedBefore(peds, p - 1) + if Listed(peds, p - 1) then 1 else 0
  }

  lemma EnabledIff(peds: string, p: nat)
    requires p < 16
    ensures Enabled(ActiveSlots(peds, 20))[p] == if Listed(peds, p) then 1 else 0
  {
    FirstDistinctIff(SlotValues(peds), 20);
  }

  lemma {:induction false} OnesAre(peds: string, enable: seq<int>, p: nat)
    requires p <= 16 && enable == Enabled(ActiveSlots(peds, 20))
    ensures Ones(enable, p) == ListedBefore(peds, p)
  {
    if p > 0 {
      OnesAre(peds, enable, p - 1);
      EnabledIff(peds, p - 1);
    }
  }

  /** End to end: parse the slots of a pedestal file, write the configuration file, read it on the
      crate's host, run the Prestart loop over what was read, with no port configured before.  Bit
      `p` of the mask says that payload `p + 1` is listed and fewer than nine listed ones come before it. */
  lemma SlotsToMask(peds: string, r: Reader, rocName: string, preamble: seq<GenLine>, tail: seq<GenLine>,
                    before: seq<bool>, mask: nat, p: nat)
    requires ShapedCore(r.core) && RocName(rocName) && IsPreamble(preamble) && IsTail(tail)
    requires |before| == 16 && forall q :: 0 <= q < 16 ==> !before[q]
    ensures var text := FileOf(GeneratedFile(rocName, preamble, Enabled(ActiveSlots(peds, 20)), tail));
            var o := ReadText(r, rocName + "vtp", text);
            && o.Returned?
            && (MaskOf(mask, PrestartPorts(o.reader.core.conf.streaming.payloadEnArray, before)) ==>
                  (Bit(mask, p) <==> p < 16 && Listed(peds, p) && ListedBefore(peds, p) < 9))
  {
    var enable := Enabled(ActiveSlots(peds, 20));
    FileRead(r, rocName, preamble, enable, tail);
    if MaskOf(mask, PrestartPorts(enable, before)) {
      FromCleared(enable, before, mask, p);
      if p < 16 {
        EnabledIff(peds, p);
        OnesAre(peds, enable, p);
      }
    }
  }

  // ---------------------------------------------------------------- the generator

  lemma {:induction false} FileAppend(a: seq<GenLine>, b: seq<GenLine>)
    ensures FileOf(a + b) == FileOf(a) + FileOf(b)
    decreases |a|
  {
    if a == [] {
      assert a + b == b;
    } else {
      assert (a + b)[1..] == a[1..] + b;
      FileAppend(a[1..], b);
    }
  }

  lemma OneLineFile(x: GenLine)
    ensures FileOf([x]) == LineOf(x)
  {
    assert FileOf([x]) == LineOf(x) + FileOf([]);
  }

  lemma {:induction false} PaddedSnoc(show: Digits, a: seq<int>, n: nat)
    requires n < |a|
    ensures PaddedBy(show, a[..n + 1]) == PaddedBy(show, a[..n]) + ("  " + show(a[n]))
    decreases n
  {
    if n == 0 {
      assert a[..1] == [a[0]] && a[..0] == [];
      assert PaddedBy(show, [a[0]]) == "  " + show(a[0]) + PaddedBy(show, []);
    } else {
      assert a[..n + 1][1..] == a[1..][..n] && a[..n][1..] == a[1..][..n - 1];
      PaddedSnoc(show, a[1..], n - 1);
    }
  }

  lemma FileParts(rocName: string, preamble: seq<GenLine>, enable: seq<int>, tail: seq<GenLine>)
    ensures FileOf(GeneratedFile(rocName, preamble, enable, tail))
         == LineOf(Entry(CRATE, " " + (rocName + "vtp"))) + FileOf(preamble) + (PAYLOAD + Padded(enable) + "\n")
            + FileOf(tail)
  {
    var crate, payload := Entry(CRATE, " " + (rocName + "vtp")), PayloadLine(enable);
    FileAppend([crate] + preamble + [payload], tail);
    FileAppend([crate] + preamble, [payload]);
    FileAppend([crate], preamble);
    OneLineFile(crate);
    OneLineFile(payload);
    assert LineOf(payload) == PAYLOAD + Padded(enable) + "\n";
  }

  /** Entries, one after another, behind a word. */
  method WriteEntries(word: string, show: Digits, values: seq<int>) returns (line: string)
    ensures line == word + PaddedBy(show, values)
  {
    line := word;
    for i := 0 to |values|
      invariant line == word + PaddedBy(show, values[..i])
    {
      PaddedSnoc(show, values, i);
      line := line + ("  " + show(values[i]));
    }
    assert values[..|values|] == values;
  }

  /** `generate_vtp_config`: the return code and what is written.  `peds` is the pedestal file, None if
      it cannot be opened; `writable` says whether the output file can be. */
  method GenerateVtpConfig(rocName: string, peds: Option<string>, writable: bool,
                           preamble: seq<GenLine>, tail: seq<GenLine>) returns (rc: int, text: string)
    ensures rc == 0 <==> peds.Some? && writable
    ensures rc != 0 ==> rc == -1 && text == ""
    ensures rc == 0 ==>
      text == FileOf(GeneratedFile(rocName, preamble, Enabled(ActiveSlots(peds.value, 20)), tail))
  {
    var slots := new int[20];
    var n := ParseActiveFadcSlots(peds, slots, 20);
    if n < 0 {
      return -1, "";
    }
    var enable := MapSlots(slots, n);
    if !writable {
      return -1, "";
    }
    var payload := WriteEntries(PAYLOAD, DecText, enable[..]);
    FileParts(rocName, preamble, enable[..], tail);
    rc := 0;
    text := LineOf(Entry(CRATE, " " + (rocName + "vtp"))) + FileOf(preamble) + (payload + "\n") + FileOf(tail);
  }

  // ---------------------------------------------------------------- the lines written out

  /** The file begins with the crate line, and the payload line has sixteen entries behind two spaces. */
  lemma FileText(rocName: string, preamble: seq<GenLine>, enable: seq<int>, tail: seq<GenLine>)
    requires Flags(enable) && |enable| == 16
    ensures LineOf(GeneratedFile(rocName, preamble, enable, tail)[0]) == "VTP_CRATE " + rocName + "vtp" + "\n"
    ensures GeneratedFile(rocName, preamble, enable, tail)[1 + |preamble|] == PayloadLine(enable)
    ensures LineOf(PayloadLine(enable)) == "VTP_PAYLOAD_EN" + (PaddedBy(DecText, enable) + "\n")
    ensures |PaddedBy(DecText, enable)| == 48
    ensures forall p: nat :: p < 16 ==>
              PaddedBy(DecText, enable)[3 * p..3 * p + 3] == if enable[p] == 1 then "  1" else "  0"
  {
    assert CRATE + (" " + (rocName + "vtp") + "\n") == "VTP_CRATE " + rocName + "vtp" + "\n" by {
      assert CRATE + " " == "VTP_CRATE ";
    }
    assert DecText(0) == "0" && DecText(1) == "1";
    PaddedShort(DecText, enable);
    forall p: nat | p < 16
      ensures PaddedBy(DecText, enable)[3 * p..3 * p + 3] == if enable[p] == 1 then "  1" else "  0"
    {
      EntryAt(DecText, enable, p);
    }
  }

  lemma {:induction false} EntryAt(show: Digits, a: seq<int>, p: nat)
    requires Flags(a) && p < |a| && forall v :: 0 <= v <= 1 ==> |show(v)| == 1 && OneLine(show(v))
    ensures |PaddedBy(show, a)| == 3 * |a| && PaddedBy(show, a)[3 * p..3 * p + 3] == "  " + show(a[p])
    decreases p
  {
    PaddedShort(show, a);
    var head, rest := "  " + show(a[0]), PaddedBy(show, a[1..]);
    assert PaddedBy(show, a) == head + rest && |head| == 3;
    if p == 0 {
      assert (head + rest)[0..3] == head;
    } else {
      EntryAt(show, a[1..], p - 1);
      assert (head + rest)[3 * p..3 * p + 3] == rest[3 * (p - 1)..3 * (p - 1) + 3];
    }
  }
}
