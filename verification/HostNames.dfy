/**
 Names that two programs must agree on: the path the generator writes and the path the readout list
 derives from its host name, and the crate name inside the file.

 A C string is the part of a buffer before its first NUL.
 */
module HostNames {
  import opened Options
  import opened Text
  import opened ConfigReader
  import opened GeneratedConfig
  import opened SlotTable

  const NUL: char := '\0'

  function CString(buf: seq<char>): string {
    if buf == [] || buf[0] == NUL then "" else [buf[0]] + CString(buf[1..])
  }

  ghost predicate NoNul(s: string) {
    NUL !in s
  }

  lemma {:induction false} CStringIs(s: string, rest: seq<char>)
    requires NoNul(s) && rest != [] && rest[0] == NUL
    ensures CString(s + rest) == s
    decreases |s|
  {
    if s == "" {
      assert s + rest == rest;
    } else {
      assert (s + rest)[1..] == s[1..] + rest;
      CStringIs(s[1..], rest);
    }
  }

  lemma BufferHolds(buf: seq<char>, n: nat)
    requires n < |buf| && buf[n] == NUL && NoNul(buf[..n])
    ensures CString(buf) == buf[..n]
  {
    assert buf == buf[..n] + buf[n..];
    CStringIs(buf[..n], buf[n..]);
  }

  method StrLen(s: array<char>) returns (n: nat)
    requires NUL in s[..]
    ensures n < s.Length && s[n] == NUL && NoNul(s[..n]) && CString(s[..]) == s[..n]
  {
    n := 0;
    while s[n] != NUL
      invariant n < s.Length && NoNul(s[..n])
      invariant exists k :: n <= k < s.Length && s[k] == NUL
      decreases s.Length - n
    {
      assert s[..n + 1] == s[..n] + [s[n]];
      n := n + 1;
    }
    BufferHolds(s[..], n);
  }

  // ---------------------------------------------------------------- what the helpers compute

  predicate Trailing(c: char) {
    c == '\n' || c == '\r' || c == '\t' || c == ' '
  }

  function Trimmed(s: string): string {
    if s != "" && Trailing(s[|s| - 1]) then Trimmed(s[..|s| - 1]) else s
  }

  function UpToDot(s: string): string {
    if s == "" || s[0] == '.' then "" else [s[0]] + UpToDot(s[1..])
  }

  function Sanitized(s: string): (t: string)
    ensures |t| == |s|
  {
    seq(|s|, i requires 0 <= i < |s| => if NameChar(s[i]) then s[i] else '_')
  }

  function StripVtp(s: string): string {
    if |s| > 3 && s[|s| - 3..] == "vtp" then s[..|s| - 3] else s
  }

  // ---------------------------------------------------------------- the helpers, in place

  method TrimTrailingWs(s: array<char>)
    requires NUL in s[..]
    modifies s
    ensures NUL in s[..] && CString(s[..]) == Trimmed(old(CString(s[..])))
  {
    var end := StrLen(s);
    while end > 0 && Trailing(s[end - 1])
      invariant 0 <= end < s.Length && s[end] == NUL && NoNul(s[..end])
      invariant Trimmed(s[..end]) == Trimmed(old(CString(s[..])))
    {
      end := end - 1;
      ghost var was := s[..end + 1];
      s[end] := NUL;
      assert s[..end] == was[..end];
    }
    BufferHolds(s[..], end);
  }

  lemma {:induction false} DotAt(s: string, i: nat)
    requires i <= |s| && '.' !in s[..i] && (i < |s| ==> s[i] == '.')
    ensures UpToDot(s) == s[..i]
    decreases i
  {
    if i > 0 {
      assert s[0] == s[..i][0];
      assert s[1..][..i - 1] == s[..i][1..];
      DotAt(s[1..], i - 1);
    }
  }

  /** `strchr` for the first dot, and the cut there. */
  method StripDomain(s: array<char>)
    requires NUL in s[..]
    modifies s
    ensures NUL in s[..] && CString(s[..]) == UpToDot(old(CString(s[..])))
  {
    var n := StrLen(s);
    ghost var name := s[..n];
    var i := 0;
    while i < n && s[i] != '.'
      invariant 0 <= i <= n && '.' !in s[..i]
    {
      assert s[..i + 1] == s[..i] + [s[i]];
      i := i + 1;
    }
    assert name[..i] == s[..i];
    DotAt(name, i);
    if i < n {
      s[i] := NUL;
    }
    assert s[..i] == name[..i];
    BufferHolds(s[..], i);
  }

  method Sanitize(s: array<char>)
    requires NUL in s[..]
    modifies s
    ensures NUL in s[..] && CString(s[..]) == Sanitized(old(CString(s[..])))
  {
    ghost var name := CString(s[..]);
    ghost var n := StrLen(s);
    var i := 0;
    while s[i] != NUL
      invariant 0 <= i <= n < s.Length && s[n] == NUL
      invariant |name| == n && NoNul(s[..n])
      invariant forall k :: 0 <= k < n ==> s[k] == if k < i && !NameChar(name[k]) then '_' else name[k]
      decreases n - i
    {
      assert s[i] in s[..n];
      if !NameChar(s[i]) {
        s[i] := '_';
      }
      i := i + 1;
    }
    assert s[..n] == Sanitized(name);
    BufferHolds(s[..], n);
  }

  /** `snprintf` and `strncpy` into `size` characters. */
  function Truncated(s: string, size: nat): (t: string)
    requires size > 0
    ensures |t| < size
  {
    if |s| < size then s else s[..size - 1]
  }

  /** `strncpy` of all the buffer but its last character, which becomes NUL. */
  method Copy(src: string, dst: array<char>)
    requires NoNul(src) && dst.Length > 0
    modifies dst
    ensures NUL in dst[..] && CString(dst[..]) == Truncated(src, dst.Length)
  {
    var n := |Truncated(src, dst.Length)|;
    for i := 0 to n
      invariant dst[..i] == src[..i]
    {
      dst[i] := src[i];
    }
    for i := n to dst.Length
      invariant dst[..n] == src[..n]
      invariant i > n ==> dst[n] == NUL
    {
      dst[i] := NUL;
    }
    BufferHolds(dst[..], n);
  }

  method StripTrailingVtp(src: string, dst: array<char>)
    requires NoNul(src)
    modifies dst
    ensures dst.Length > 0 ==> NUL in dst[..] && CString(dst[..]) == StripVtp(Truncated(src, dst.Length))
  {
    if dst.Length == 0 {
      return;
    }
    Copy(src, dst);
    var len := StrLen(dst);
    ghost var text := dst[..len];
    assert text == Truncated(src, dst.Length);
    assert len > 3 ==> text[len - 3..] == [dst[len - 3], dst[len - 2], dst[len - 1]];
    if len > 3 && dst[len - 3] == 'v' && dst[len - 2] == 't' && dst[len - 1] == 'p' {
      dst[len - 3] := NUL;
      assert dst[..len - 3] == text[..len - 3];
      BufferHolds(dst[..], len - 3);
    }
  }

  function ShortName(name: string): string {
    Sanitized(UpToDot(Trimmed(name)))
  }

  /** The name in use: the host name, or as much of the node name as fits if there is no host name or
      it does not fit, in which case gethostname fails. */
  function NameInUse(name: Option<string>, node: Option<string>, size: nat): (n: Option<string>)
    requires size > 0
    ensures n.Some? ==> |n.value| < size
  {
    if name.Some? && name.value != "" && |name.value| < size then name
    else match node case None => None case Some(s) => Some(Truncated(s, size))
  }

  ghost predicate Clean(name: Option<string>) {
    name.Some? ==> NoNul(name.value)
  }

  method GetSanitizedHostname(buf: array<char>, name: Option<string>, node: Option<string>) returns (rc: int)
    requires Clean(name) && Clean(node)
    modifies buf
    ensures rc == 0 || rc == -1
    ensures rc == 0 <==> buf.Length > 0 && NameInUse(name, node, buf.Length).Some?
    ensures rc == 0 ==> NUL in buf[..] && CString(buf[..]) == ShortName(NameInUse(name, node, buf.Length).value)
  {
    if buf.Length == 0 {
      return -1;
    }
    if name.Some? && name.value != "" && |name.value| < buf.Length {
      Copy(name.value, buf);
    } else if node.Some? {
      Copy(node.value, buf);
    } else {
      return -1;
    }
    TrimTrailingWs(buf);
    StripDomain(buf);
    Sanitize(buf);
    rc := 0;
  }

  function Path(dir: string, name: string): string {
    dir + ("/vtp_" + (name + ".cnf"))
  }

  /** The path the generator writes to. */
  function ProducerPath(dir: string, rocName: string): string {
    Truncated(Path(dir, rocName), 512)
  }

  /** The path the readout list reads from. */
  function ConsumerPath(dir: string, name: string): string {
    Truncated(Path(Trimmed(Truncated(dir, 512)), StripVtp(ShortName(name))), 512)
  }

  /** The directory from `CODA_CONFIG`, copied and trimmed. */
  method ConfigDirectory(codaConfig: string) returns (dir: string)
    requires NoNul(codaConfig)
    ensures dir == Trimmed(Truncated(codaConfig, 512))
  {
    var buf := new char[512](_ => NUL);
    Copy(codaConfig, buf);
    TrimTrailingWs(buf);
    var n := StrLen(buf);
    dir := buf[..n];
  }

  /** The host name without its domain and its "vtp". */
  method HostBase(name: Option<string>, node: Option<string>) returns (base: Option<string>)
    requires Clean(name) && Clean(node)
    ensures base == match NameInUse(name, node, 256) case None => None case Some(n) => Some(StripVtp(ShortName(n)))
  {
    var host := new char[256](_ => NUL);
    var rc := GetSanitizedHostname(host, name, node);
    if rc != 0 {
      return None;
    }
    var n := StrLen(host);
    ghost var used := NameInUse(name, node, 256).value;
    assert |ShortName(used)| < 256;
    var buf := new char[256](_ => NUL);
    StripTrailingVtp(host[..n], buf);
    var b := StrLen(buf);
    base := Some(buf[..b]);
  }

  /** `vtp_get_generated_config_path`; None where it returns -1. */
  method GetGeneratedConfigPath(codaConfig: Option<string>, name: Option<string>, node: Option<string>)
    returns (path: Option<string>)
    requires Clean(codaConfig) && Clean(name) && Clean(node)
    ensures path.None? <==> codaConfig.None? || codaConfig.value == "" || NameInUse(name, node, 256).None?
    ensures path.Some? ==> path.value == ConsumerPath(codaConfig.value, NameInUse(name, node, 256).value)
  {
    if codaConfig.None? || codaConfig.value == "" {
      return None;
    }
    var dir := ConfigDirectory(codaConfig.value);
    var base := HostBase(name, node);
    if base.None? {
      return None;
    }
    path := Some(Truncated(Path(dir, base.value), 512));
  }

  // ---------------------------------------------------------------- agreement

  lemma {:induction false} TrimSuffix(s: string, suffix: string)
    requires s != "" && !Trailing(s[|s| - 1])
    ensures Trimmed(s + suffix) == s + Trimmed(suffix)
    decreases |suffix|
  {
    var t := s + suffix;
    if suffix == "" {
      assert t == s;
    } else {
      assert t[|t| - 1] == suffix[|suffix| - 1];
      assert t[..|t| - 1] == s + suffix[..|suffix| - 1];
      if Trailing(suffix[|suffix| - 1]) {
        TrimSuffix(s, suffix[..|suffix| - 1]);
      }
    }
  }

  lemma {:induction false} TrimKeepsDot(suffix: string)
    requires suffix != "" && suffix[0] == '.'
    ensures Trimmed(suffix) != "" && Trimmed(suffix)[0] == '.'
    decreases |suffix|
  {
    if Trailing(suffix[|suffix| - 1]) {
      TrimKeepsDot(suffix[..|suffix| - 1]);
    }
  }

  /** Nothing, or a domain: a dot and anything at all. */
  predicate Domain(suffix: string) {
    suffix == "" || suffix[0] == '.'
  }

  lemma CutDomain(h: string, suffix: string)
    requires Domain(suffix) && '.' !in h
    ensures UpToDot(h + suffix) == h
  {
    assert (h + suffix)[..|h|] == h;
    DotAt(h + suffix, |h|);
  }

  lemma ShortNameIs(h: string, suffix: string)
    requires h != "" && Domain(suffix) && forall i :: 0 <= i < |h| ==> NameChar(h[i])
    ensures ShortName(h + suffix) == h && UpToDot(h + suffix) == h
  {
    TrimSuffix(h, suffix);
    if suffix != "" {
      TrimKeepsDot(suffix);
    }
    CutDomain(h, Trimmed(suffix));
    CutDomain(h, suffix);
    assert Sanitized(h) == h;
  }

  /** Which host names lead to the base name `r`. */
  lemma StripIff(h: string, r: string)
    requires r != ""
    ensures StripVtp(h) == r <==> h == r + "vtp" || (h == r && !(|r| > 3 && r[|r| - 3..] == "vtp"))
  {
    if StripVtp(h) == r && h != r {
      assert h == h[..|h| - 3] + h[|h| - 3..];
    }
  }

  lemma TrimLength(s: string)
    ensures |Trimmed(s)| <= |s| && (|Trimmed(s)| == |s| <==> Trimmed(s) == s)
  {
    if s != "" && Trailing(s[|s| - 1]) {
      TrimLength(s[..|s| - 1]);
    }
  }

  lemma PathIff(d: string, e: string, name: string)
    ensures Path(d, name) == Path(e, name) <==> d == e
  {
    if Path(d, name) == Path(e, name) {
      assert |d| == |e|;
      assert d == Path(d, name)[..|d|] && e == Path(e, name)[..|e|];
    }
  }

  /** A host called `r` followed by "vtp" and any domain reads the path that was written for `r`,
      exactly when the directory has no white space at its end. */
  lemma PathsAgreeIff(dir: string, r: string, suffix: string)
    requires RocName(r) && Domain(suffix) && |Path(dir, r)| < 512
    ensures ConsumerPath(dir, r + "vtp" + suffix) == ProducerPath(dir, r) <==> Trimmed(dir) == dir
  {
    ShortNameIs(r + "vtp", suffix);
    StripIff(r + "vtp", r);
    TrimLength(dir);
    PathIff(Trimmed(dir), dir, r);
  }

  /** And the file written for `r` activates the reader there and sets the payloads. */
  lemma ProducerConsumer(dir: string, r: string, suffix: string, reader: Reader,
                         preamble: seq<GenLine>, enable: seq<int>, tail: seq<GenLine>)
    requires RocName(r) && Domain(suffix) && |Path(dir, r)| < 512 && Trimmed(dir) == dir
    requires ShapedCore(reader.core) && IsPreamble(preamble) && IsTail(tail) && Flags(enable) && |enable| == 16
    ensures ConsumerPath(dir, r + "vtp" + suffix) == ProducerPath(dir, r)
    ensures var host := UpToDot(r + "vtp" + suffix);
            var o := ReadText(reader, host, FileOf(GeneratedFile(r, preamble, enable, tail)));
            o.Returned? && PayloadIs(o.reader.core.conf, enable)
  {
    PathsAgreeIff(dir, r, suffix);
    ShortNameIs(r + "vtp", suffix);
    FileRead(reader, r, preamble, enable, tail);
  }

  // ---------------------------------------------------------------- the names written out

  lemma Capitals(c: char)
    ensures c in "ABCDEFGHIJKLMNOPQRSTUVWXYZ" <==> 'A' <= c <= 'Z'
  {
    assert 'A' <= c <= 'Z' ==> "ABCDEFGHIJKLMNOPQRSTUVWXYZ"[c as int - 'A' as int] == c;
  }

  lemma SmallLetters(c: char)
    ensures c in "abcdefghijklmnopqrstuvwxyz" <==> 'a' <= c <= 'z'
  {
    assert 'a' <= c <= 'z' ==> "abcdefghijklmnopqrstuvwxyz"[c as int - 'a' as int] == c;
  }

  lemma OtherCharacters(c: char)
    ensures c in "0123456789_-" <==> '0' <= c <= '9' || c == '_' || c == '-'
  {
    assert '0' <= c <= '9' ==> "0123456789_-"[c as int - '0' as int] == c;
    assert "0123456789_-"[10] == '_' && "0123456789_-"[11] == '-';
  }

  /** What is kept of a host name: letters, digits, underscore and minus. */
  lemma KeptCharacters(c: char)
    ensures NameChar(c) <==>
              c in "ABCDEFGHIJKLMNOPQRSTUVWXYZ" || c in "abcdefghijklmnopqrstuvwxyz" || c in "0123456789_-"
  {
    Capitals(c);
    SmallLetters(c);
    OtherCharacters(c);
  }

  /** Trimming takes off the newlines, returns, tabs and spaces at the end, and nothing else. */
  lemma {:induction false} TrimmedIs(s: string)
    ensures var t := Trimmed(s);
            && t <= s && (t != "" ==> t[|t| - 1] !in "\n\r\t ")
            && forall i :: |t| <= i < |s| ==> s[i] in "\n\r\t "
    decreases |s|
  {
    if s != "" && Trailing(s[|s| - 1]) {
      TrimmedIs(s[..|s| - 1]);
      TrailingIs(s[|s| - 1]);
    } else if s != "" {
      TrailingIs(s[|s| - 1]);
    }
  }

  lemma TrailingIs(c: char)
    ensures Trailing(c) <==> c in "\n\r\t "
  {
    assert "\n\r\t "[0] == '\n' && "\n\r\t "[1] == '\r' && "\n\r\t "[2] == '\t' && "\n\r\t "[3] == ' ';
  }

  /** The cut is at the first dot. */
  lemma {:induction false} CutIs(s: string)
    ensures var t := UpToDot(s); t <= s && '.' !in t && (|t| < |s| ==> s[|t|] == '.')
    decreases |s|
  {
    if s != "" && s[0] != '.' {
      CutIs(s[1..]);
      assert s == [s[0]] + s[1..];
    }
  }

  /** The file a crate's configuration is written to, by its name. */
  lemma PathText(dir: string, rocName: string)
    requires |dir| + |rocName| < 502
    ensures ProducerPath(dir, rocName) == dir + "/vtp_" + rocName + ".cnf"
  {
    assert Path(dir, rocName) == dir + "/vtp_" + rocName + ".cnf";
  }
}
