/**
 `vtpReadConfigFile`: a character-level reader that takes lines off a file, remembers the current
 crate's activation, the current trigger bit and the last mask, and stores what active lines say.

 `sscanf` leaves a variable alone when it matches nothing, so the keyword, the crate name, the
 trigger bit and the mask array keep their previous contents from line to line; what they hold at
 the start of a call is arbitrary.
 */
module ConfigReader {
  import opened Options
  import opened Bits
  import opened Text
  import opened ConfigKeys
  import opened ConfigStore

  /** What stored lines work on. */
  datatype Core = Core(conf: Conf, trgBit: int, msk: seq<int>)

  /** What decides whether a line is stored. */
  datatype Gate = Gate(active: bool, keyword: string, rocName: string)

  datatype Reader = Reader(core: Core, gate: Gate)

  predicate ShapedCore(c: Core) {
    Shaped(c.conf) && |c.msk| == 16
  }

  const STRLEN: nat := 250

  // ---------------------------------------------------------------- masks

  /** The scanned ints over the old contents of the mask array. */
  function Overlay(msk: seq<int>, a: seq<Arg>): (r: seq<int>)
    ensures |r| == |msk|
  {
    seq(|msk|, i requires 0 <= i < |msk| => if i < |a| then N(a, i) else msk[i])
  }

  predicate MaskBits(msk: seq<int>, n: nat)
    requires n <= |msk|
  {
    forall i :: 0 <= i < n ==> msk[i] == 0 || msk[i] == 1
  }

  /** The loop `ui1 |= msk[jj] << jj`. */
  function MaskValue(msk: seq<int>, n: nat): nat
    requires n <= |msk| && MaskBits(msk, n)
  {
    if n == 0 then 0 else Or(MaskValue(msk, n - 1), msk[n - 1] * Pow2(n - 1))
  }

  /** The sum of `msk[i] * 2^i`. */
  function Weight(msk: seq<int>, n: nat): int
    requires n <= |msk|
  {
    if n == 0 then 0 else Weight(msk, n - 1) + msk[n - 1] * Pow2(n - 1)
  }

  lemma {:induction false} MaskIsWeight(msk: seq<int>, n: nat)
    requires n <= |msk| && MaskBits(msk, n)
    ensures MaskValue(msk, n) == Weight(msk, n) < Pow2(n)
  {
    if n > 0 {
      MaskIsWeight(msk, n - 1);
      if msk[n - 1] == 1 {
        OrAbove(MaskValue(msk, n - 1), n - 1);
      }
    }
  }

  // ---------------------------------------------------------------- one stored line

  function StoreSetting(s: Streaming, t: SettingKey, v: int): Streaming {
    match t
    case StatsPort => if 0 < v < 65536 then s.(statsPort := v) else s
    case StatsInst => if 0 <= v < 4 then s.(statsInst := v) else s
    case SyncPktLen => if 0 < v < 1500 then s.(syncPktLen := v) else s
    case NumConnections => if 1 <= v <= 4 then s.(numConnections := v) else s
    case NetMode => if v == 0 || v == 1 then s.(netMode := v) else s
    case EnableEjfat => if v == 0 || v == 1 then s.(enableEjfat := v) else s
    case LocalPort => if 0 < v < 65536 then s.(localPort := v) else s
  }

  /** How many instances a range-checked keyword has, and the error otherwise. */
  function CheckedRange(c: CheckedKey): (int, int) {
    match c
    case DcSegthr => (3, -1)
    case StreamingEb => (2, -4)
    case ComptonPrescale => (32, -4)
    case ComptonDelay => (32, -4)
    case _ => (5, -4)
  }

  /** The new state and the routine's error return, 0 if it goes on. */
  function StoreKey(c: Core, k: Key, a: seq<Arg>): (r: (Core, int))
    requires ShapedCore(c)
    ensures ShapedCore(r.0)
  {
    match k
    case Gt(g) =>
      if g.GtTrg? then
        var bit := if |a| >= 1 then N(a, 0) else c.trgBit;
        (c.(trgBit := bit), if 0 <= bit < 32 then 0 else -4)
      else if PerBit(g) then
        if 0 <= c.trgBit < 32 then (c.(conf := PutField(c.conf, k, c.trgBit, a)), 0) else (c, -4)
      else (c.(conf := PutField(c.conf, k, 0, a)), 0)
    case Hps(h) =>
      if h.EcalTop? then (c.(conf := c.conf.(hps := c.conf.hps.(topNBottom := 1))), 0)
      else if h.EcalBottom? then (c.(conf := c.conf.(hps := c.conf.hps.(topNBottom := 0))), 0)
      else StoreAt(c, k, if h.HpsPrescale? then N(a, 0) else 0, a)
    case Pair(_) => StoreAt(c, k, N(a, 0), a)
    case Single(_) => StoreAt(c, k, N(a, 0), a)
    case Mult(_) => StoreAt(c, k, N(a, 0), a)
    case Fee(f) => StoreAt(c, k, if f.FeePrescale? then N(a, 0) else 0, a)
    case FthodoEmin => StoreAt(c, k, 0, a)
    case Setting(t) => (c.(conf := c.conf.(streaming := StoreSetting(c.conf.streaming, t, N(a, 0)))), 0)
    case PayloadEn =>
      var msk := Overlay(c.msk, a);
      if MaskBits(msk, |msk|) then
        (Core(c.conf.(payloadEn := MaskValue(msk, |msk|), streaming := c.conf.streaming.(payloadEnArray := msk)),
              c.trgBit, msk), 0)
      else (c.(msk := msk), -6)
    case FiberEn =>
      var msk := Overlay(c.msk, a);
      if MaskBits(msk, 4) then (Core(c.conf.(fiberEn := MaskValue(msk, 4)), c.trgBit, msk), 0)
      else (c.(msk := msk), -6)
    case SlotEn =>
      var msk := Overlay(c.msk, a);
      (c.(msk := msk), if MaskBits(msk, 8) then 0 else -6)
    case ComptonMask =>
      var msk := Overlay(c.msk, if a == [] then [] else a[1..]);
      (c.(msk := msk), if !(0 <= N(a, 0) < 5) then -4 else if MaskBits(msk, 16) then 0 else -6)
    case GtTrgbit => StoreTrgbit(c, N(a, 0), t => PutTrgbit(t, a))
    case GtTrgbit2 => StoreTrgbit(c, N(a, 0), t => PutTrgbit2(t, a))
    case Checked(x) =>
      (c, if 0 <= N(a, 0) < CheckedRange(x).0 then 0 else CheckedRange(x).1)
  }

  /** All of one trigger bit. */
  function StoreTrgbit(c: Core, i: int, put: TrgBit -> TrgBit): (r: (Core, int))
    requires ShapedCore(c)
    ensures ShapedCore(r.0)
  {
    if 0 <= i < 32 then
      var t := put(c.conf.gt.trg[i]);
      (c.(conf := c.conf.(gt := c.conf.gt.(trg := c.conf.gt.trg[i := t]))), 0)
    else (c, -4)
  }

  function StoreAt(c: Core, k: Key, i: int, a: seq<Arg>): (r: (Core, int))
    requires ShapedCore(c) && Field(k, 0)
    ensures ShapedCore(r.0)
  {
    if 0 <= i < Count(k) then (c.(conf := PutField(c.conf, k, i, a)), 0) else (c, -4)
  }

  /** The text behind the keyword, which `%*s` skips. */
  function Arguments(text: string): string {
    match ScanWord(text)
    case None => ""
    case Some((_, rest)) => rest
  }

  /** A line under an active crate; a keyword the reader does not know is only reported. */
  function StoreLine(c: Core, keyword: string, text: string): (r: (Core, int))
    requires ShapedCore(c)
    ensures ShapedCore(r.0)
  {
    match KeyOf(keyword)
    case None => (c, 0)
    case Some(k) => StoreKey(c, k, ScanArgs(Arguments(text), Kinds(k)))
  }

  // ---------------------------------------------------------------- the gate

  /** What `sscanf("%s %s")` finds on a line. */
  datatype Words = Words(keyword: Option<string>, rocName: Option<string>)

  function WordsIn(text: string): Words {
    match ScanWord(text)
    case None => Words(None, None)
    case Some((keyword, rest)) =>
      match ScanWord(rest)
      case None => Words(Some(keyword), None)
      case Some((rocName, _)) => Words(Some(keyword), Some(rocName))
  }

  function Found<A>(found: Option<A>, before: A): A {
    match found case Some(x) => x case None => before
  }

  /** The keyword and the crate name as found, or else as they were, and the effect of a crate line. */
  function GateStep(g: Gate, host: string, w: Words): Gate {
    Entered(g.(keyword := Found(w.keyword, g.keyword), rocName := Found(w.rocName, g.rocName)), host)
  }

  function GateAfter(g: Gate, host: string, text: string): Gate {
    GateStep(g, host, WordsIn(text))
  }

  function Entered(g: Gate, host: string): Gate {
    if g.keyword == CRATE then g.(active := g.rocName == host || g.rocName == "all") else g
  }

  /** The line just taken is to be stored. */
  predicate Governed(g: Gate) {
    g.active && g.keyword != CRATE
  }

  function ReadLine(r: Reader, host: string, text: string): (res: (Reader, int))
    requires ShapedCore(r.core)
    ensures ShapedCore(res.0.core)
  {
    var g := GateAfter(r.gate, host, text);
    if !Governed(g) then (Reader(r.core, g), 0)
    else
      var (core, code) := StoreLine(r.core, g.keyword, text);
      (Reader(core, g), code)
  }

  /** Lines in order, up to the first that returns an error. */
  function ReadLines(r: Reader, host: string, lines: seq<string>): (res: (Reader, int))
    requires ShapedCore(r.core)
    ensures ShapedCore(res.0.core)
    decreases |lines|
  {
    if lines == [] then (r, 0)
    else
      var (next, code) := ReadLine(r, host, lines[0]);
      if code != 0 then (next, code) else ReadLines(next, host, lines[1..])
  }

  // ---------------------------------------------------------------- taking lines off a file

  predicate Terminated(s: string) {
    '\n' in s
  }

  predicate SkipsLine(c: char) {
    c == '#' || c == ' ' || c == '\t'
  }

  /** What `fgets` takes into the line buffer. */
  function Chunk(s: string): (n: nat)
    ensures n <= |s| && (s != "" ==> n > 0)
  {
    FgetsLength(s, STRLEN)
  }

  /** The pieces of a file the parser sees.  `ends` is false when the file stops inside a comment
      line: the loop that skips it then never sees a newline. */
  datatype Pieces = Pieces(lines: seq<string>, ends: bool)

  function Split(s: string): Pieces
    decreases |s|
  {
    if s == "" then Pieces([], true)
    else if SkipsLine(s[0]) then
      if Terminated(s[1..]) then Split(s[1 + LineLength(s[1..])..]) else Pieces([], false)
    else if s[0] == '\n' then Split(s[1..])
    else
      var rest := Split(s[Chunk(s)..]);
      rest.(lines := [s[..Chunk(s)]] + rest.lines)
  }

  /** How a call ends: a return code, or never. */
  datatype Outcome = Returned(reader: Reader, code: int) | Hung(reader: Reader)

  function ReadText(r: Reader, host: string, s: string): (o: Outcome)
    requires ShapedCore(r.core)
    ensures ShapedCore(o.reader.core)
  {
    var pieces := Split(s);
    var (after, code) := ReadLines(r, host, pieces.lines);
    if code != 0 then Returned(after, code)
    else if pieces.ends then Returned(after, 0)
    else Hung(after)
  }

  lemma SkipComment(r: Reader, host: string, s: string)
    requires ShapedCore(r.core) && s != "" && SkipsLine(s[0])
    ensures ReadText(r, host, s)
         == if Terminated(s[1..]) then ReadText(r, host, s[1 + LineLength(s[1..])..]) else Hung(r)
  {
  }

  lemma SkipBlank(r: Reader, host: string, s: string)
    requires ShapedCore(r.core) && s != "" && s[0] == '\n'
    ensures ReadText(r, host, s) == ReadText(r, host, s[1..])
  {
  }

  lemma TakeLine(r: Reader, host: string, s: string)
    requires ShapedCore(r.core) && s != "" && !SkipsLine(s[0]) && s[0] != '\n'
    ensures var (next, code) := ReadLine(r, host, s[..Chunk(s)]);
            ReadText(r, host, s)
            == if code != 0 then Returned(next, code) else ReadText(next, host, s[Chunk(s)..])
  {
    var rest := Split(s[Chunk(s)..]);
    var line := s[..Chunk(s)];
    assert ([line] + rest.lines)[1..] == rest.lines;
  }

  class ConfigFile {
    var conf: Conf

    /** Parse an open file.  `start` is what the routine's locals happen to hold; the result is the
        return code, or None if the call never returns. */
    method ParseConfigFile(host: string, content: string, start: Reader) returns (code: Option<int>, ghost last: Reader)
      requires ShapedCore(start.core) && start.core.conf == conf
      modifies this
      ensures var o := ReadText(start.(gate := start.gate.(active := false)), host, content);
              && last == o.reader && conf == o.reader.core.conf
              && code == match o case Returned(_, c) => Some(c) case Hung(_) => None
    {
      var r := start.(gate := start.gate.(active := false));
      var rest := content;
      ghost var goal := ReadText(r, host, content);
      while rest != ""
        invariant ShapedCore(r.core) && r.core.conf == conf
        invariant ReadText(r, host, rest) == goal
        decreases |rest|
      {
        var ch := rest[0];
        if SkipsLine(ch) {
          SkipComment(r, host, rest);
          if !Terminated(rest[1..]) {
            return None, r;
          }
          rest := rest[1 + LineLength(rest[1..])..];
        } else if ch == '\n' {
          SkipBlank(r, host, rest);
          rest := rest[1..];
        } else {
          TakeLine(r, host, rest);
          var (next, c) := ReadLine(r, host, rest[..Chunk(rest)]);
          r := next;
          conf := r.core.conf;
          rest := rest[Chunk(rest)..];
          if c != 0 {
            return Some(c), r;
          }
        }
      }
      return Some(0), r;
    }
  }

  // ---------------------------------------------------------------- the characters that matter

  /** A line that begins with a hash, a space or a tab is passed over; an empty one too. */
  lemma PassedOver(text: string, rest: string)
    requires OneLine(text)
    ensures Split("#" + text + "\n" + rest) == Split(rest)
    ensures Split(" " + text + "\n" + rest) == Split(rest)
    ensures Split("\t" + text + "\n" + rest) == Split(rest)
    ensures Split("\n" + rest) == Split(rest)
  {
    PassedOverBy("#", text, rest);
    PassedOverBy(" ", text, rest);
    PassedOverBy("\t", text, rest);
    assert ("\n" + rest)[1..] == rest;
  }

  lemma PassedOverBy(mark: string, text: string, rest: string)
    requires OneLine(text) && |mark| == 1 && SkipsLine(mark[0])
    ensures Split(mark + text + "\n" + rest) == Split(rest)
  {
    var s, t := mark + text + "\n" + rest, text + "\n" + rest;
    assert s[0] == mark[0] && s[1..] == t;
    LineLengthIs(text, rest);
    assert t[|text|] == '\n';
    assert s[1 + (|text| + 1)..] == rest;
  }

  /** Any other line is taken: up to 248 characters with its newline, 249 of a longer one. */
  lemma Taken(body: string, rest: string)
    requires body != "" && OneLine(body) && body[0] != '#' && body[0] != ' ' && body[0] != '\t'
    ensures |body| <= 248 ==>
              Split(body + "\n" + rest) == Split(rest).(lines := [body + "\n"] + Split(rest).lines)
    ensures |body| == 249 ==> Split(body + rest) == Split(rest).(lines := [body] + Split(rest).lines)
  {
    LineLengthIs(body, rest);
    NoLineEnd(body, rest);
    var s := body + "\n" + rest;
    assert s[..|body| + 1] == body + "\n" && s[|body| + 1..] == rest;
    assert (body + rest)[..|body|] == body && (body + rest)[|body|..] == rest;
  }

  /** The crate line, the only keyword that is read while inactive. */
  lemma CrateWord()
    ensures CRATE == "VTP_CRATE"
  {
  }
}
