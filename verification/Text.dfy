/**
 The part of the C library's formatted input and output that the configuration code uses:
 `%s`, `%d`, `%f` and `0x%X` on input, `%d`, `0x%08X` and fixed-point text on output.
 */
module Text {
  import opened Options

  datatype Class = Space | NonSpace | Digit | HexDigit | FixedPoint

  predicate IsSpace(c: char) {
    c == ' ' || '\t' <= c <= '\r'
  }

  predicate In(c: char, k: Class) {
    match k
    case Space => IsSpace(c)
    case NonSpace => !IsSpace(c)
    case Digit => '0' <= c <= '9'
    case HexDigit => '0' <= c <= '9' || 'A' <= c <= 'F' || 'a' <= c <= 'f'
    case FixedPoint => '0' <= c <= '9' || c == '.'
  }

  ghost predicate AllIn(s: string, k: Class) {
    forall i :: 0 <= i < |s| ==> In(s[i], k)
  }

  /** Length of the longest prefix in a class. */
  function Span(s: string, k: Class): (n: nat)
    ensures n <= |s|
  {
    if s == "" || !In(s[0], k) then 0 else 1 + Span(s[1..], k)
  }

  lemma {:induction false} SpanExact(a: string, b: string, k: Class)
    requires AllIn(a, k) && (b == "" || !In(b[0], k))
    ensures Span(a + b, k) == |a|
  {
    if a == "" {
      assert a + b == b;
    } else {
      assert (a + b)[1..] == a[1..] + b;
      SpanExact(a[1..], b, k);
    }
  }

  function SkipSpace(s: string): string {
    s[Span(s, Space)..]
  }

  /** Characters up to and including the next newline, or all there are. */
  function LineLength(s: string): (n: nat)
    ensures n <= |s|
    ensures s != "" ==> n > 0
  {
    if s == "" then 0 else if s[0] == '\n' then 1 else 1 + LineLength(s[1..])
  }

  /** What `fgets` takes into a buffer of `size`: up to a newline, and never the whole buffer. */
  function FgetsLength(s: string, size: nat): (n: nat)
    requires size > 1
    ensures n <= |s| && (s != "" ==> n > 0)
  {
    if LineLength(s) < size then LineLength(s) else size - 1
  }

  /** Characters that neither end a line nor are lost: printed numbers contain none of them. */
  ghost predicate OneLine(s: string) {
    '\n' !in s
  }

  lemma {:induction false} LineLengthIs(body: string, rest: string)
    requires OneLine(body)
    ensures LineLength(body + "\n" + rest) == |body| + 1
  {
    if body == "" {
      assert (body + "\n" + rest)[0] == '\n';
    } else {
      assert (body + "\n" + rest)[1..] == body[1..] + "\n" + rest;
      LineLengthIs(body[1..], rest);
    }
  }

  lemma {:induction false} NoLineEnd(body: string, rest: string)
    requires OneLine(body)
    ensures LineLength(body + rest) >= |body|
  {
    if body != "" {
      assert (body + rest)[1..] == body[1..] + rest;
      NoLineEnd(body[1..], rest);
    }
  }

  // ---------------------------------------------------------------- scanning

  /** `%s`: a word and what follows it. */
  function ScanWord(s: string): Option<(string, string)> {
    var t := SkipSpace(s);
    var n := Span(t, NonSpace);
    if n == 0 then None else Some((t[..n], t[n..]))
  }

  function DigitValue(c: char): nat
    requires In(c, HexDigit)
  {
    if c <= '9' then c as int - '0' as int
    else if c <= 'F' then c as int - 'A' as int + 10
    else c as int - 'a' as int + 10
  }

  function ValueOf(s: string, base: nat): nat
    requires forall i :: 0 <= i < |s| ==> In(s[i], HexDigit)
  {
    if s == "" then 0 else ValueOf(s[..|s| - 1], base) * base + DigitValue(s[|s| - 1])
  }

  lemma {:induction false} SpanIn(s: string, k: Class)
    ensures AllIn(s[..Span(s, k)], k)
  {
    if s != "" && In(s[0], k) {
      SpanIn(s[1..], k);
      assert s[..Span(s, k)] == [s[0]] + s[1..][..Span(s[1..], k)];
    }
  }

  predicate Signed(s: string) {
    s != "" && (s[0] == '-' || s[0] == '+')
  }

  /** An int is 32 bits wide and conversion saturates. */
  function Saturate(v: int): int {
    if v > 0x7fff_ffff then 0x7fff_ffff else if v < -0x8000_0000 then -0x8000_0000 else v
  }

  /** The digits at the front of `u`. */
  function DigitsAt(u: string): Option<(nat, string)> {
    var n := Span(u, Digit);
    SpanIn(u, Digit);
    if n == 0 then None else Some((ValueOf(u[..n], 10), u[n..]))
  }

  /** A signed number at the front of `t`. */
  function IntAt(t: string): Option<(int, string)> {
    match DigitsAt(if Signed(t) then t[1..] else t)
    case None => None
    case Some((v, rest)) =>
      var value: int := v;
      Some((Saturate(if Signed(t) && t[0] == '-' then -value else value), rest))
  }

  /** `%d`. */
  function ScanInt(s: string): Option<(int, string)> {
    IntAt(SkipSpace(s))
  }

  /** `0x` and hexadecimal digits, kept to 32 bits. */
  function HexAt(t: string): Option<(int, string)> {
    if !(|t| >= 2 && t[0] == '0' && t[1] == 'x') then None
    else
      var u := t[2..];
      var n := Span(u, HexDigit);
      SpanIn(u, HexDigit);
      if n == 0 then None
      else
        var v := ValueOf(u[..n], 16);
        Some((if v > 0xffff_ffff then 0xffff_ffff else v, u[n..]))
  }

  /** `0x%X` after white space. */
  function ScanHex(s: string): Option<(int, string)> {
    HexAt(SkipSpace(s))
  }

  function FixedAt(t: string): Option<(string, string)> {
    var sign := if Signed(t) then 1 else 0;
    var n := Span(t[sign..], FixedPoint);
    if n == 0 then None else Some((t[..sign + n], t[sign + n..]))
  }

  /** `%f`, as the characters it takes. */
  function ScanFixed(s: string): Option<(string, string)> {
    FixedAt(SkipSpace(s))
  }

  // ---------------------------------------------------------------- printing

  function DecNat(n: nat): (s: string)
    ensures |s| > 0
  {
    if n < 10 then ["0123456789"[n]] else DecNat(n / 10) + ["0123456789"[n % 10]]
  }

  /** `%d`. */
  function DecText(v: int): string {
    if v < 0 then "-" + DecNat(-v) else DecNat(v)
  }

  function HexDigits(n: nat, width: nat): (s: string)
    ensures |s| == width
    decreases width
  {
    if width == 0 then "" else HexDigits(n / 16, width - 1) + ["0123456789ABCDEF"[n % 16]]
  }

  /** `0x%08X`. */
  function HexText(n: nat): string {
    "0x" + HexDigits(n, 8)
  }

  /** What `%f` and `%.3f` print: an optional sign, digits and a point. */
  ghost predicate IsFixed(t: string) {
    var body := if Signed(t) then t[1..] else t;
    body != "" && AllIn(body, FixedPoint) && |t| <= 48
  }

  lemma {:induction false} DecNatValue(n: nat)
    ensures AllIn(DecNat(n), Digit) && ValueOf(DecNat(n), 10) == n
  {
    if n < 10 {
      DigitChar(n);
    } else {
      DecNatValue(n / 10);
      DigitChar(n % 10);
      var s := DecNat(n);
      assert s[..|s| - 1] == DecNat(n / 10);
    }
  }

  lemma DigitChar(d: nat)
    requires d < 10
    ensures In("0123456789"[d], Digit) && DigitValue("0123456789"[d]) == d
  {
  }

  lemma HexChar(d: nat)
    requires d < 16
    ensures In("0123456789ABCDEF"[d], HexDigit) && DigitValue("0123456789ABCDEF"[d]) == d
  {
  }

  function Power16(k: nat): nat {
    if k == 0 then 1 else 16 * Power16(k - 1)
  }

  lemma {:induction false} HexDigitsValue(n: nat, width: nat)
    requires n < Power16(width)
    ensures AllIn(HexDigits(n, width), HexDigit) && ValueOf(HexDigits(n, width), 16) == n
    decreases width
  {
    if width > 0 {
      HexDigitsValue(n / 16, width - 1);
      HexChar(n % 16);
      var s := HexDigits(n, width);
      assert s[..width - 1] == HexDigits(n / 16, width - 1);
    }
  }

  /** A separator, or the end of the text. */
  predicate Ends(tail: string) {
    tail == "" || IsSpace(tail[0])
  }

  lemma SkipOneSpace(x: string, tail: string)
    requires x != "" && !IsSpace(x[0])
    ensures SkipSpace(" " + x + tail) == x + tail
  {
    assert " " + x + tail == " " + (x + tail);
    SpanExact(" ", x + tail, Space);
  }

  lemma DigitsThere(n: nat, tail: string)
    requires Ends(tail)
    ensures DigitsAt(DecNat(n) + tail) == Some((n, tail))
  {
    var digits := DecNat(n);
    DecNatValue(n);
    SpanExact(digits, tail, Digit);
    assert (digits + tail)[..|digits|] == digits && (digits + tail)[|digits|..] == tail;
  }

  lemma PositiveThere(d: string, n: nat, tail: string)
    requires d != "" && In(d[0], Digit) && DigitsAt(d + tail) == Some((n, tail)) && n <= 0x7fff_ffff
    ensures IntAt(d + tail) == Some((n, tail)) && !IsSpace(d[0])
  {
    assert (d + tail)[0] == d[0];
  }

  lemma NegativeThere(d: string, n: int, tail: string)
    requires DigitsAt(d + tail) == Some((n, tail)) && n <= 0x8000_0000
    ensures IntAt("-" + d + tail) == Some((-n, tail))
  {
    assert ("-" + d + tail)[1..] == d + tail;
  }

  lemma IntThere(v: int, tail: string)
    requires -0x8000_0000 <= v <= 0x7fff_ffff && Ends(tail)
    ensures IntAt(DecText(v) + tail) == Some((v, tail))
    ensures !IsSpace(DecText(v)[0])
  {
    var n := if v < 0 then -v else v;
    DigitsThere(n, tail);
    DecNatValue(n);
    if v < 0 {
      NegativeThere(DecNat(n), n, tail);
    } else {
      PositiveThere(DecNat(n), n, tail);
    }
  }

  /** An int printed and scanned again is itself. */
  lemma ScanDecText(v: int, tail: string)
    requires -0x8000_0000 <= v <= 0x7fff_ffff && Ends(tail)
    ensures ScanInt(" " + DecText(v) + tail) == Some((v, tail))
  {
    IntThere(v, tail);
    SkipOneSpace(DecText(v), tail);
  }

  lemma HexThere(n: nat, tail: string)
    requires n <= 0xffff_ffff && Ends(tail)
    ensures HexAt(HexText(n) + tail) == Some((n, tail))
  {
    var digits := HexDigits(n, 8);
    assert Power16(8) == 0x1_0000_0000;
    HexDigitsValue(n, 8);
    SpanExact(digits, tail, HexDigit);
    assert (HexText(n) + tail)[2..] == digits + tail;
    assert (digits + tail)[..8] == digits && (digits + tail)[8..] == tail;
  }

  /** So is a 32-bit mask. */
  lemma ScanHexText(n: nat, tail: string)
    requires n <= 0xffff_ffff && Ends(tail)
    ensures ScanHex(" " + HexText(n) + tail) == Some((n, tail))
  {
    HexThere(n, tail);
    SkipOneSpace(HexText(n), tail);
  }

  lemma FixedThere(x: string, tail: string)
    requires IsFixed(x) && Ends(tail)
    ensures FixedAt(x + tail) == Some((x, tail)) && x != "" && !IsSpace(x[0])
  {
    var sign := if Signed(x) then 1 else 0;
    assert In(x[sign..][0], FixedPoint);
    SpanExact(x[sign..], tail, FixedPoint);
    assert (x + tail)[sign..] == x[sign..] + tail;
    assert (x + tail)[..|x|] == x && (x + tail)[|x|..] == tail;
  }

  /** And fixed-point text is taken whole. */
  lemma ScanFixedText(x: string, tail: string)
    requires IsFixed(x) && Ends(tail)
    ensures ScanFixed(" " + x + tail) == Some((x, tail))
  {
    FixedThere(x, tail);
    SkipOneSpace(x, tail);
  }

  lemma ScanFirstWord(word: string, tail: string)
    requires word != "" && AllIn(word, NonSpace) && Ends(tail)
    ensures ScanWord(word + tail) == Some((word, tail))
    ensures ScanWord(" " + word + tail) == Some((word, tail))
  {
    SpanExact(word, tail, NonSpace);
    var t := word + tail;
    SkipOneSpace(word, tail);
    assert Span(t, Space) == 0 && t[0..] == t;
    assert t[..|word|] == word && t[|word|..] == tail;
  }

  // ---------------------------------------------------------------- argument lists

  datatype Kind = D | X | F
  datatype Arg = Num(v: int) | Fix(t: string)

  function ScanOne(kind: Kind, s: string): Option<(Arg, string)> {
    match kind
    case D => (match ScanInt(s) case Some((v, rest)) => Some((Num(v), rest)) case None => None)
    case X => (match ScanHex(s) case Some((v, rest)) => Some((Num(v), rest)) case None => None)
    case F => (match ScanFixed(s) case Some((t, rest)) => Some((Fix(t), rest)) case None => None)
  }

  type Scanner = (Kind, string) -> Option<(Arg, string)>
  type Printer = (Kind, Arg) -> string

  /** One conversion after another, up to the first that fails. */
  function ScanSeq(scan: Scanner, s: string, kinds: seq<Kind>): (args: seq<Arg>)
    ensures |args| <= |kinds|
    decreases |kinds|
  {
    if kinds == [] then []
    else
      match scan(kinds[0], s)
      case None => []
      case Some((arg, rest)) => [arg] + ScanSeq(scan, rest, kinds[1..])
  }

  function PrintSeq(print1: Printer, kinds: seq<Kind>, args: seq<Arg>): string
    requires |kinds| == |args|
  {
    if args == [] then "" else " " + print1(kinds[0], args[0]) + PrintSeq(print1, kinds[1..], args[1..])
  }

  /** The conversions of one sscanf call. */
  function ScanArgs(s: string, kinds: seq<Kind>): seq<Arg> {
    ScanSeq(ScanOne, s, kinds)
  }

  function PrintOne(kind: Kind, arg: Arg): string {
    match arg
    case Num(v) => if kind == X && v >= 0 then HexText(v) else DecText(v)
    case Fix(t) => t
  }

  /** The arguments of one sprintf call, each behind a space. */
  function PrintArgs(kinds: seq<Kind>, args: seq<Arg>): string
    requires |kinds| == |args|
  {
    PrintSeq(PrintOne, kinds, args)
  }

  /** The argument can be printed for the conversion. */
  ghost predicate Fits(kind: Kind, arg: Arg) {
    match kind
    case D => arg.Num? && -0x8000_0000 <= arg.v <= 0x7fff_ffff
    case X => arg.Num? && 0 <= arg.v <= 0xffff_ffff
    case F => arg.Fix? && IsFixed(arg.t)
  }

  ghost predicate AllFit(kinds: seq<Kind>, args: seq<Arg>) {
    |kinds| == |args| && forall i :: 0 <= i < |args| ==> Fits(kinds[i], args[i])
  }

  lemma ScanPrintedOne(kind: Kind, arg: Arg, tail: string)
    requires Fits(kind, arg) && Ends(tail)
    ensures ScanOne(kind, " " + PrintOne(kind, arg) + tail) == Some((arg, tail))
  {
    match kind
    case D => ScanDecText(arg.v, tail);
    case X => ScanHexText(arg.v, tail);
    case F => ScanFixedText(arg.t, tail);
  }

  /** `scan` takes back what `print1` prints before a separator. */
  ghost predicate Inverse(scan: Scanner, print1: Printer) {
    forall kind, arg, tail :: Fits(kind, arg) && Ends(tail) ==>
      scan(kind, " " + print1(kind, arg) + tail) == Some((arg, tail))
  }

  lemma JoinTail(head: string, middle: string, tail: string)
    ensures " " + head + middle + tail == " " + head + (middle + tail)
  {
  }

  lemma {:induction false} SeqInverse(scan: Scanner, print1: Printer, kinds: seq<Kind>, args: seq<Arg>, tail: string)
    requires Inverse(scan, print1) && AllFit(kinds, args) && Ends(tail)
    ensures Ends(PrintSeq(print1, kinds, args) + tail)
    ensures ScanSeq(scan, PrintSeq(print1, kinds, args) + tail, kinds) == args
    decreases |args|
  {
    if args == [] {
      assert PrintSeq(print1, kinds, args) + tail == tail;
    } else {
      var rest := PrintSeq(print1, kinds[1..], args[1..]) + tail;
      SeqInverse(scan, print1, kinds[1..], args[1..], tail);
      var head := print1(kinds[0], args[0]);
      JoinTail(head, PrintSeq(print1, kinds[1..], args[1..]), tail);
      assert Fits(kinds[0], args[0]);
      assert scan(kinds[0], " " + head + rest) == Some((args[0], rest));
    }
  }

  /** A printed argument list is scanned back as it was. */
  lemma ScanPrinted(kinds: seq<Kind>, args: seq<Arg>, tail: string)
    requires AllFit(kinds, args) && Ends(tail)
    ensures Ends(PrintArgs(kinds, args) + tail)
    ensures ScanArgs(PrintArgs(kinds, args) + tail, kinds) == args
  {
    assert Inverse(ScanOne, PrintOne) by {
      forall kind, arg, tail | Fits(kind, arg) && Ends(tail)
        ensures ScanOne(kind, " " + PrintOne(kind, arg) + tail) == Some((arg, tail))
      {
        ScanPrintedOne(kind, arg, tail);
      }
    }
    SeqInverse(ScanOne, PrintOne, kinds, args, tail);
  }

  lemma ClassOneLine(s: string, k: Class)
    requires AllIn(s, k) && (k.Digit? || k.HexDigit?)
    ensures OneLine(s)
  {
  }

  lemma DecOneLine(v: int)
    requires -0x8000_0000 <= v <= 0x7fff_ffff
    ensures OneLine(DecText(v)) && |DecText(v)| <= 11
  {
    var n := if v < 0 then -v else v;
    DecNatValue(n);
    ClassOneLine(DecNat(n), Digit);
    assert Power10(10) == 10_000_000_000;
    DecNatLength(n, 10);
  }

  lemma HexOneLine(n: nat)
    requires n <= 0xffff_ffff
    ensures OneLine(HexText(n)) && |HexText(n)| == 10
  {
    assert Power16(8) == 0x1_0000_0000;
    HexDigitsValue(n, 8);
    ClassOneLine(HexDigits(n, 8), HexDigit);
  }

  lemma PrintedOneLine(kind: Kind, arg: Arg)
    requires Fits(kind, arg)
    ensures OneLine(PrintOne(kind, arg))
    ensures |PrintOne(kind, arg)| <= (if kind == F then 48 else 11)
  {
    match kind
    case D => DecOneLine(arg.v);
    case X => HexOneLine(arg.v);
    case F =>
  }

  function Power10(k: nat): nat {
    if k == 0 then 1 else 10 * Power10(k - 1)
  }

  lemma {:induction false} DecNatLength(n: nat, k: nat)
    requires k > 0 && n < Power10(k)
    ensures |DecNat(n)| <= k
  {
    if n >= 10 {
      assert Power10(1) == 10 * Power10(0) == 10;
      DecNatLength(n / 10, k - 1);
    }
  }
}
