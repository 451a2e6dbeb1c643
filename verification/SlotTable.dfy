/** From the pedestal file's `FADC250_SLOT` lines to the array of enabled payloads. */
module SlotTable {
  import opened Options
  import opened Text

  /** Slot of payload `p + 1`. */
  const PAYLOAD_TO_SLOT: seq<int> := [10, 13, 9, 14, 8, 15, 7, 16, 6, 17, 5, 18, 4, 19, 3, 20]

  /** The same without a table: odd payloads go down from slot 10, even ones up from slot 13. */
  function SlotOf(p: nat): int {
    if p % 2 == 0 then 10 - p / 2 else 13 + p / 2
  }

  lemma TableIs(p: nat)
    requires p < 16
    ensures PAYLOAD_TO_SLOT[p] == SlotOf(p)
  {
  }

  lemma TableHolds(slot: int)
    ensures 3 <= slot <= 10 ==> SlotOf(20 - 2 * slot) == slot
    ensures 13 <= slot <= 20 ==> SlotOf(2 * slot - 25) == slot
  {
  }

  /** The slot a line names, if it is a slot line. */
  function SlotValue(line: string): Option<int> {
    match ScanWord(line)
    case None => None
    case Some((keyword, rest)) =>
      match ScanInt(rest)
      case None => None
      case Some((slot, _)) => if keyword == "FADC250_SLOT" then Some(slot) else None
  }

  /** A keyword, a space and a number, and perhaps more: the number, for the one keyword. */
  lemma SlotLine(word: string, v: int, tail: string)
    requires word != "" && AllIn(word, NonSpace) && -0x8000_0000 <= v <= 0x7fff_ffff && Ends(tail)
    ensures SlotValue(word + (" " + DecText(v) + tail)) == if word == "FADC250_SLOT" then Some(v) else None
  {
    ScanDecText(v, tail);
    ScanFirstWord(word, " " + DecText(v) + tail);
  }

  lemma OtherLine(word: string, tail: string)
    requires word != "" && AllIn(word, NonSpace) && Ends(tail) && word != "FADC250_SLOT"
    ensures SlotValue(word + tail) == None
  {
    ScanFirstWord(word, tail);
  }

  type LineScan = string -> Option<int>

  function Collect(scan: LineScan, lines: seq<string>): seq<int> {
    if lines == [] then []
    else
      Collect(scan, lines[..|lines| - 1])
      + match scan(lines[|lines| - 1]) case None => [] case Some(v) => [v]
  }

  const LINE_SIZE: nat := 512

  /** The file as `fgets` cuts it up. */
  function PedsLines(text: string): seq<string>
    decreases |text|
  {
    if text == "" then []
    else
      var n := FgetsLength(text, LINE_SIZE);
      [text[..n]] + PedsLines(text[n..])
  }

  /** A line of up to 510 characters is taken with its newline, a longer one 511 characters at a time. */
  lemma PedsLine(body: string, rest: string)
    requires OneLine(body)
    ensures |body| <= 510 ==> PedsLines(body + "\n" + rest) == [body + "\n"] + PedsLines(rest)
    ensures |body| == 511 ==> PedsLines(body + rest) == [body] + PedsLines(rest)
  {
    LineLengthIs(body, rest);
    NoLineEnd(body, rest);
    assert (body + "\n" + rest)[..|body| + 1] == body + "\n" && (body + "\n" + rest)[|body| + 1..] == rest;
    assert (body + rest)[..|body|] == body && (body + rest)[|body|..] == rest;
  }

  /** The slots a pedestal file names, in order. */
  function SlotValues(peds: string): seq<int> {
    Collect(SlotValue, PedsLines(peds))
  }

  /** The list of distinct values, in order, that stops growing at `max`. */
  function FirstDistinct(vs: seq<int>, max: nat): (s: seq<int>)
    ensures |s| <= max
  {
    if vs == [] then []
    else
      Added(FirstDistinct(vs[..|vs| - 1], max), vs[|vs| - 1], max)
  }

  function Added(s: seq<int>, v: int, max: nat): (t: seq<int>)
    requires |s| <= max
    ensures |t| <= max
  {
    if v in s || |s| == max then s else s + [v]
  }

  /** The slots `parse_active_fadc_slots` finds in a file. */
  function ActiveSlots(peds: string, max: nat): (s: seq<int>)
    ensures |s| <= max
  {
    FirstDistinct(SlotValues(peds), max)
  }

  ghost function Values(vs: seq<int>): set<int> {
    set v | v in vs
  }

  /** `v` appears while fewer than `max` different values have appeared before it. */
  ghost predicate AmongFirst(vs: seq<int>, max: nat, v: int) {
    exists j :: 0 <= j < |vs| && vs[j] == v && |Values(vs[..j])| < max
  }

  ghost predicate Distinct(s: seq<int>) {
    forall i, j :: 0 <= i < j < |s| ==> s[i] != s[j]
  }

  lemma {:induction false} DistinctCount(s: seq<int>)
    requires Distinct(s)
    ensures |Values(s)| == |s|
  {
    if s != [] {
      var rest := s[..|s| - 1];
      DistinctCount(rest);
      assert s == rest + [s[|s| - 1]];
      assert Values(s) == Values(rest) + {s[|s| - 1]};
    }
  }

  lemma AmongSnoc(vs: seq<int>, last: int, max: nat, v: int)
    ensures AmongFirst(vs + [last], max, v) <==> AmongFirst(vs, max, v) || (v == last && |Values(vs)| < max)
  {
    var all := vs + [last];
    forall j | 0 <= j <= |vs| ensures all[..j] == vs[..j] {
    }
    assert vs[..|vs|] == vs;
    if v == last && |Values(vs)| < max {
      assert all[|vs|] == v && all[..|vs|] == vs;
    }
    if AmongFirst(vs, max, v) {
      var j :| 0 <= j < |vs| && vs[j] == v && |Values(vs[..j])| < max;
      assert all[j] == v && all[..j] == vs[..j];
    }
  }

  /** `s` is what a list limited to `max` holds after `vs`. */
  ghost predicate Holds(s: seq<int>, vs: seq<int>, max: nat) {
    && Distinct(s)
    && |s| == (if |Values(vs)| < max then |Values(vs)| else max)
    && (|Values(vs)| <= max ==> Values(s) == Values(vs))
  }

  lemma RoomLeft(s: seq<int>, vs: seq<int>, v: int, max: nat)
    requires Holds(s, vs, max) && |s| < max
    ensures Holds(Added(s, v, max), vs + [v], max)
  {
    SeenListed(vs, s, max, v);
    assert Values(vs + [v]) == Values(vs) + {v};
    if v in s {
      assert Values(vs) + {v} == Values(vs);
    } else {
      assert Values(s + [v]) == Values(s) + {v};
    }
  }

  lemma NoRoom(s: seq<int>, vs: seq<int>, v: int, max: nat)
    requires Holds(s, vs, max) && |s| == max
    ensures Holds(Added(s, v, max), vs + [v], max)
  {
    assert Values(vs + [v]) == Values(vs) + {v};
    if v in Values(vs) {
      assert Values(vs) + {v} == Values(vs);
    }
  }

  lemma AddedHolds(s: seq<int>, vs: seq<int>, v: int, max: nat)
    requires Holds(s, vs, max)
    ensures Holds(Added(s, v, max), vs + [v], max)
    ensures forall w :: w in Added(s, v, max) <==> w in s || (w == v && |Values(vs)| < max)
  {
    SeenListed(vs, s, max, v);
    if |s| < max {
      RoomLeft(s, vs, v, max);
    } else {
      NoRoom(s, vs, v, max);
    }
  }

  /** The list holds exactly the first `max` different values, once each. */
  lemma {:induction false} FirstDistinctIff(vs: seq<int>, max: nat)
    ensures Holds(FirstDistinct(vs, max), vs, max)
    ensures forall v :: v in FirstDistinct(vs, max) <==> AmongFirst(vs, max, v)
    decreases |vs|
  {
    if vs == [] {
      assert Values(vs) == {};
    } else {
      var before, last := vs[..|vs| - 1], vs[|vs| - 1];
      assert vs == before + [last];
      FirstDistinctIff(before, max);
      var s := FirstDistinct(before, max);
      AddedHolds(s, before, last, max);
      forall v ensures v in Added(s, last, max) <==> AmongFirst(vs, max, v) {
        AmongSnoc(before, last, max, v);
      }
    }
  }

  /** A value seen before is in the list, unless the list is full. */
  lemma SeenListed(vs: seq<int>, s: seq<int>, max: nat, v: int)
    requires Holds(s, vs, max)
    ensures |s| < max ==> (v in s <==> v in Values(vs))
    ensures |s| < max <==> |Values(vs)| < max
  {
    assert v in s <==> v in Values(s);
  }

  lemma LineTaken(scan: LineScan, lines: seq<string>, j: nat, max: nat)
    requires j < |lines|
    ensures var s := FirstDistinct(Collect(scan, lines[..j]), max);
            FirstDistinct(Collect(scan, lines[..j + 1]), max)
            == match scan(lines[j]) case None => s case Some(v) => Added(s, v, max)
  {
    assert lines[..j + 1][..j] == lines[..j];
    var vs := Collect(scan, lines[..j]);
    match scan(lines[j])
    case None => assert vs + [] == vs;
    case Some(v) => assert (vs + [v])[..|vs|] == vs;
  }

  /** The search for a slot already in the list. */
  method AlreadyExists(slots: array<int>, n: nat, slot: int) returns (found: bool)
    requires n <= slots.Length
    ensures found <==> slot in slots[..n]
  {
    for i := 0 to n
      invariant slot !in slots[..i]
    {
      if slots[i] == slot {
        return true;
      }
      assert slots[..i + 1] == slots[..i] + [slots[i]];
    }
    return false;
  }

  /** One slot line. */
  method AddSlot(slots: array<int>, n: nat, slot: int, maxSlots: nat) returns (m: nat)
    requires n <= maxSlots <= slots.Length
    modifies slots
    ensures n <= m <= maxSlots && slots[..m] == Added(old(slots[..n]), slot, maxSlots)
    ensures forall i :: m <= i < slots.Length ==> slots[i] == old(slots[i])
  {
    m := n;
    var alreadyExists := AlreadyExists(slots, n, slot);
    if !alreadyExists && n < maxSlots {
      slots[n] := slot;
      m := n + 1;
    }
  }

  /** The loop over the lines. */
  method CollectSlots(scan: LineScan, peds: string, slots: array<int>, maxSlots: nat) returns (n: nat)
    requires maxSlots <= slots.Length
    modifies slots
    ensures n <= maxSlots && slots[..n] == FirstDistinct(Collect(scan, PedsLines(peds)), maxSlots)
    ensures forall i :: n <= i < slots.Length ==> slots[i] == old(slots[i])
  {
    n := 0;
    var rest := peds;
    ghost var lines, j := PedsLines(peds), 0;
    while rest != ""
      invariant n <= maxSlots && j <= |lines| && lines[j..] == PedsLines(rest)
      invariant slots[..n] == FirstDistinct(Collect(scan, lines[..j]), maxSlots)
      invariant forall i :: n <= i < slots.Length ==> slots[i] == old(slots[i])
      decreases |rest|
    {
      var length := FgetsLength(rest, LINE_SIZE);
      var line := rest[..length];
      assert lines[j..] == [line] + PedsLines(rest[length..]);
      assert lines[j] == line && lines[j + 1..] == PedsLines(rest[length..]);
      LineTaken(scan, lines, j, maxSlots);
      var value := scan(line);
      if value.Some? {
        n := AddSlot(slots, n, value.value, maxSlots);
      }
      rest := rest[length..];
      j := j + 1;
    }
    assert lines[..j] == lines;
  }

  /** `parse_active_fadc_slots`; None is a file that cannot be opened. */
  method ParseActiveFadcSlots(peds: Option<string>, slots: array<int>, maxSlots: int) returns (n: int)
    requires maxSlots <= slots.Length
    modifies slots
    ensures n == -1 <==> peds.None? || maxSlots <= 0
    ensures n == -1 ==> slots[..] == old(slots[..])
    ensures n != -1 ==> 0 <= n <= maxSlots && slots[..n] == ActiveSlots(peds.value, maxSlots)
    ensures n != -1 ==> forall i :: n <= i < slots.Length ==> slots[i] == old(slots[i])
  {
    if peds.None? || maxSlots <= 0 {
      return -1;
    }
    n := CollectSlots(SlotValue, peds.value, slots, maxSlots);
  }

  /** `slot_to_payload`. */
  method SlotToPayload(slot: int) returns (payload: int)
    ensures payload == if 3 <= slot <= 10 then 21 - 2 * slot else if 13 <= slot <= 20 then 2 * (slot - 12) else -1
  {
    for i := 0 to 16
      invariant forall p: nat :: p < i ==> SlotOf(p) != slot
    {
      TableIs(i);
      if PAYLOAD_TO_SLOT[i] == slot {
        return i + 1;
      }
    }
    TableHolds(slot);
    return -1;
  }

  /** One for the payloads whose slot is listed. */
  function Enabled(slots: seq<int>): (e: seq<int>)
    ensures |e| == 16
  {
    seq(16, p requires 0 <= p < 16 => if SlotOf(p) in slots then 1 else 0)
  }

  /** The part of `generate_vtp_config` that fills the payload array. */
  method MapSlots(slots: array<int>, n: nat) returns (enable: array<int>)
    requires n <= slots.Length
    ensures fresh(enable) && enable[..] == Enabled(slots[..n])
  {
    enable := new int[16](_ => 0);
    for i := 0 to n
      invariant enable[..] == Enabled(slots[..i])
    {
      var payload := SlotToPayload(slots[i]);
      ghost var before := enable[..];
      assert slots[..i + 1] == slots[..i] + [slots[i]];
      if payload > 0 && payload <= 16 {
        enable[payload - 1] := 1;
      }
      OneMore(slots[..i], slots[i], payload);
      assert enable[..] == Enabled(slots[..i + 1]);
    }
  }

  lemma OneMore(slots: seq<int>, slot: int, payload: int)
    requires payload == if 3 <= slot <= 10 then 21 - 2 * slot else if 13 <= slot <= 20 then 2 * (slot - 12) else -1
    ensures Enabled(slots + [slot]) == if payload == -1 then Enabled(slots) else Enabled(slots)[payload - 1 := 1]
  {
  }
}
