/** The reader of /proc/net/tcp (probe/netlink/netutil/netutil_linux.go), and the kernel's
    printer it undoes. */
module Procfs {
  import opened Options
  import opened Text
  import opened Inet
  import opened Netlink

  /* ----- Hexadecimal text ----- */

  predicate IsHex(c: char) {
    '0' <= c <= '9' || 'a' <= c <= 'f' || 'A' <= c <= 'F'
  }

  function HexValue(c: char): (n: nat)
    requires IsHex(c)
    ensures n < 16
  {
    if '0' <= c <= '9' then c as int - '0' as int
    else if 'a' <= c <= 'f' then c as int - 'a' as int + 10
    else c as int - 'A' as int + 10
  }

  /** Digits are read in either case. */
  lemma HexValueOfDigit(c: char)
    requires IsHex(c)
    ensures c in ["0123456789abcdef"[HexValue(c)], "0123456789ABCDEF"[HexValue(c)]]
  {
  }

  function HexDigit(n: nat): (c: char)
    requires n < 16
    ensures IsHex(c) && HexValue(c) == n
  {
    if n < 10 then '0' + n as char else 'A' + (n - 10) as char
  }

  /** "%0*X". */
  function HexText(n: nat, width: nat): (s: string)
    ensures |s| == width && forall i :: 0 <= i < |s| ==> IsHex(s[i])
  {
    if width == 0 then "" else HexText(n / 16, width - 1) + [HexDigit(n % 16)]
  }

  /** The value of digits with '_' between them. */
  function HexNumber(s: string): nat
    requires forall i :: 0 <= i < |s| ==> IsHex(s[i]) || s[i] == '_'
  {
    if s == [] then 0
    else
      var front, c := HexNumber(s[..|s| - 1]), s[|s| - 1];
      if c == '_' then front else 16 * front + HexValue(c)
  }

  function Pow16(n: nat): nat {
    if n == 0 then 1 else 16 * Pow16(n - 1)
  }

  lemma {:induction false} HexRoundTrip(n: nat, width: nat)
    requires n < Pow16(width)
    ensures HexNumber(HexText(n, width)) == n
  {
    if width > 0 {
      HexRoundTrip(n / 16, width - 1);
      assert HexText(n, width)[..width - 1] == HexText(n / 16, width - 1);
    }
  }

  /** strconv.ParseInt("0x" + s, 0, 64): base 0 allows a '_' before any digit. */
  function ParseHexInt64(s: string): Option<nat> {
    if s == "" || !(forall i :: 0 <= i < |s| ==> IsHex(s[i]) || s[i] == '_') then None
    else if !(forall i :: 0 <= i < |s| && s[i] == '_' ==> i + 1 < |s| && s[i + 1] != '_') then None
    else if HexNumber(s) < 0x8000_0000_0000_0000 then Some(HexNumber(s)) else None
  }

  /** The number strconv.ParseUint(s, 16, 8) returns, together with an error or not: digits are
      read until one is malformed, which gives 0, or the value does not fit, which gives 255. */
  function ScanUint8(s: string, n: byte): byte {
    if s == "" then n
    else if !IsHex(s[0]) then 0
    else if 16 * n + HexValue(s[0]) > 255 then 255
    else ScanUint8(s[1..], 16 * n + HexValue(s[0]))
  }

  /** hex.DecodeString. */
  function DecodeHex(s: string): Option<seq<byte>> {
    if s == "" then Some([])
    else if |s| == 1 || !IsHex(s[0]) || !IsHex(s[1]) then None
    else
      var rest := DecodeHex(s[2..]);
      if rest.None? then None else Some([16 * HexValue(s[0]) + HexValue(s[1])] + rest.value)
  }

  lemma DecodeByte(n: byte, rest: string)
    ensures var s := HexText(n, 2) + rest;
      DecodeHex(s) == if DecodeHex(rest).None? then None else Some([n] + DecodeHex(rest).value)
  {
    assert HexText(n, 2) == [HexDigit(n / 16), HexDigit(n % 16)] by {
      assert HexText(n / 16, 1) == HexText(n / 16 / 16, 0) + [HexDigit(n / 16 % 16)];
    }
    assert (HexText(n, 2) + rest)[2..] == rest;
  }

  /* ----- Splitting ----- */

  function IndexOf(s: string, c: char): (i: nat)
    requires c in s
    ensures i < |s| && s[i] == c && c !in s[..i]
  {
    if s[0] == c then 0 else 1 + IndexOf(s[1..], c)
  }

  /** strings.Split and bytes.Split at a one-character separator. */
  function Split(s: string, sep: char): (parts: seq<string>)
    ensures |parts| > 0
  {
    if sep !in s then [s] else [s[..IndexOf(s, sep)]] + Split(s[IndexOf(s, sep) + 1..], sep)
  }

  lemma {:induction false} SplitJoined(parts: seq<string>, sep: char)
    requires parts != [] && forall i :: 0 <= i < |parts| ==> sep !in parts[i]
    ensures Split(Joined(parts, sep), sep) == parts
  {
    if |parts| > 1 {
      var s, rest := Joined(parts, sep), Joined(parts[1..], sep);
      assert s == parts[0] + [sep] + rest;
      assert s[|parts[0]|] == sep;
      var i := IndexOf(s, sep);
      SplitUnique(parts[0], rest, s[..i], s[i + 1..], sep);
      SplitJoined(parts[1..], sep);
    }
  }

  /** unicode.IsSpace. */
  predicate IsSpace(c: char) {
    || '\t' <= c <= '\r' || c == ' ' || c == '\U{85}' || c == '\U{A0}' || c == '\U{1680}' || '\U{2000}' <= c <= '\U{200A}'
    || c == '\U{2028}' || c == '\U{2029}' || c == '\U{202F}' || c == '\U{205F}' || c == '\U{3000}'
  }

  /** The white space of Unicode, one by one. */
  lemma WhiteSpace(c: char)
    ensures IsSpace(c) <==>
      c in "\t\n\U{0B}\U{0C}\r \U{85}\U{A0}\U{1680}\U{2000}\U{2001}\U{2002}\U{2003}\U{2004}\U{2005}\U{2006}\U{2007}\U{2008}\U{2009}\U{200A}\U{2028}\U{2029}\U{202F}\U{205F}\U{3000}"
  {
    var spaces := "\t\n\U{0B}\U{0C}\r \U{85}\U{A0}\U{1680}\U{2000}\U{2001}\U{2002}\U{2003}\U{2004}\U{2005}\U{2006}\U{2007}\U{2008}\U{2009}\U{200A}\U{2028}\U{2029}\U{202F}\U{205F}\U{3000}";
    assert spaces[5] == ' ' && spaces[24] == '\U{3000}';
  }

  function SkipSpaces(s: string): (t: string)
    ensures |t| <= |s| && (t != "" ==> !IsSpace(t[0]))
  {
    if s != "" && IsSpace(s[0]) then SkipSpaces(s[1..]) else s
  }

  function WordLength(s: string): (n: nat)
    ensures n <= |s| && (s != "" && !IsSpace(s[0]) ==> n > 0)
  {
    if s == "" || IsSpace(s[0]) then 0 else 1 + WordLength(s[1..])
  }

  /** strings.Fields. */
  function Fields(s: string): seq<string>
    decreases |s|
  {
    var t := SkipSpaces(s);
    if t == "" then [] else [t[..WordLength(t)]] + Fields(t[WordLength(t)..])
  }

  predicate IsWord(w: string) {
    w != "" && forall i :: 0 <= i < |w| ==> !IsSpace(w[i])
  }

  function Spaces(n: nat): (s: string)
    ensures |s| == n && forall i :: 0 <= i < n ==> s[i] == ' '
  {
    if n == 0 then "" else " " + Spaces(n - 1)
  }

  /** Words, each with its number of spaces before it, and spaces at the end. */
  function Spaced(words: seq<string>, gaps: seq<nat>, tail: nat): string
    requires |words| == |gaps|
  {
    if words == [] then Spaces(tail) else Spaces(gaps[0]) + words[0] + Spaced(words[1..], gaps[1..], tail)
  }

  lemma {:induction false} SkipLeading(n: nat, s: string)
    requires s == "" || !IsSpace(s[0])
    ensures SkipSpaces(Spaces(n) + s) == s
  {
    if n == 0 {
      assert Spaces(n) + s == s;
    } else {
      SkipLeading(n - 1, s);
      assert (Spaces(n) + s)[1..] == Spaces(n - 1) + s;
    }
  }

  lemma {:induction false} WordEnds(w: string, rest: string)
    requires forall i :: 0 <= i < |w| ==> !IsSpace(w[i])
    requires rest == "" || IsSpace(rest[0])
    ensures WordLength(w + rest) == |w|
  {
    if w == "" {
      assert w + rest == rest;
    } else {
      assert (w + rest)[1..] == w[1..] + rest;
      WordEnds(w[1..], rest);
    }
  }

  lemma {:induction false} FieldsSpaced(words: seq<string>, gaps: seq<nat>, tail: nat)
    requires |words| == |gaps| && forall i :: 0 <= i < |words| ==> IsWord(words[i])
    requires forall i :: 1 <= i < |gaps| ==> gaps[i] > 0
    ensures Fields(Spaced(words, gaps, tail)) == words
  {
    var s := Spaced(words, gaps, tail);
    if words == [] {
      SkipLeading(tail, "");
      assert s + "" == s;
    } else {
      var w, rest := words[0], Spaced(words[1..], gaps[1..], tail);
      assert s == Spaces(gaps[0]) + (w + rest);
      SkipLeading(gaps[0], w + rest);
      WordEnds(w, rest);
      FieldsSpaced(words[1..], gaps[1..], tail);
      assert (w + rest)[..|w|] == w && (w + rest)[|w|..] == rest;
    }
  }

  /* ----- Reading ----- */

  function Reverse(bytes: seq<byte>): (r: seq<byte>)
    ensures |r| == |bytes| && forall i :: 0 <= i < |r| ==> r[i] == bytes[|r| - 1 - i]
  {
    seq(|bytes|, i requires 0 <= i < |bytes| => bytes[|bytes| - 1 - i])
  }

  /** net.IP.String; `other` is its text for what is not four bytes long. */
  function IPText(ip: seq<byte>, other: seq<byte> -> string): string {
    if |ip| == 4 then DottedQuad(IPv4(ip[0], ip[1], ip[2], ip[3])) else other(ip)
  }

  /** decodeAddress. */
  function DecodeAddress(src: string, other: seq<byte> -> string): Option<Addr> {
    var t := Split(src, ':');
    if |t| != 2 then None
    else
      var port, decoded := ParseHexInt64(t[1]), DecodeHex(t[0]);
      if port.None? || decoded.None? then None
      else Some(Addr(IPText(Reverse(decoded.value), other), port.value % 0x1_0000_0000))
  }

  /** A line of the file; None for one that is skipped. A malformed state is kept as read. */
  function ParseLine(line: string, other: seq<byte> -> string): Option<ConnectionStat> {
    var l := Fields(line);
    if |l| < 10 then None
    else
      var la, ra := DecodeAddress(l[1], other), DecodeAddress(l[2], other);
      if la.None? || ra.None? then None else Some(ConnectionStat(la.value, ra.value, ScanUint8(l[3], 0)))
  }

  function ParseLines(lines: seq<string>, other: seq<byte> -> string): seq<ConnectionStat> {
    if lines == [] then []
    else
      var n := |lines| - 1;
      var last := ParseLine(lines[n], other);
      ParseLines(lines[..n], other) + if last.Some? then [last.value] else []
  }

  /** body is the content of /proc/net/tcp; its first line is the header. */
  method ProcfsConnections(body: string, other: seq<byte> -> string) returns (conns: seq<ConnectionStat>)
    ensures conns == ParseLines(Split(body, '\n')[1..], other)
  {
    var lines := Split(body, '\n')[1..];
    conns := [];
    for i := 0 to |lines|
      invariant conns == ParseLines(lines[..i], other)
    {
      assert lines[..i + 1][..i] == lines[..i];
      var l := Fields(lines[i]);
      if |l| < 10 {
        continue;
      }
      var la := DecodeAddress(l[1], other);
      if la.None? {
        continue;
      }
      var ra := DecodeAddress(l[2], other);
      if ra.None? {
        continue;
      }
      conns := conns + [ConnectionStat(la.value, ra.value, ScanUint8(l[3], 0))];
    }
    assert lines[..|lines|] == lines;
  }

  /* ----- Printing, as the kernel does ----- */

  /** "%08X" of the address read as a little-endian number: last byte first. */
  function QuadText(ip: IPv4): (s: string)
    ensures |s| == 8 && forall i :: 0 <= i < 8 ==> IsHex(s[i])
  {
    HexText(ip.d, 2) + (HexText(ip.c, 2) + (HexText(ip.b, 2) + HexText(ip.a, 2)))
  }

  function AddressText(ip: IPv4, port: nat): string {
    QuadText(ip) + ":" + HexText(port, 4)
  }

  /** A connection, the other columns of its line, and how far apart the columns stand. */
  datatype Line = Line(conn: Conn, index: string, others: seq<string>, gaps: seq<nat>, tail: nat)

  predicate Printable(l: Line) {
    && l.conn.sport < 0x10000 && l.conn.dport < 0x10000 && l.conn.state < 0x100
    && IsWord(l.index) && |l.others| >= 6 && (forall i :: 0 <= i < |l.others| ==> IsWord(l.others[i]))
    && |l.gaps| == 4 + |l.others| && forall i :: 1 <= i < |l.gaps| ==> l.gaps[i] > 0
  }

  type KernelLine = l: Line | Printable(l)
    witness Line(Conn(IPv4(0, 0, 0, 0), 0, IPv4(0, 0, 0, 0), 0, 0, 0), "0:", ["0", "0", "0", "0", "0", "0"], [0, 1, 1, 1, 1, 1, 1, 1, 1, 1], 0)

  function Columns(l: KernelLine): (words: seq<string>)
    ensures |words| == |l.gaps|
  {
    [l.index, AddressText(l.conn.src, l.conn.sport), AddressText(l.conn.dst, l.conn.dport), HexText(l.conn.state, 2)] + l.others
  }

  function LineText(l: KernelLine): string {
    Spaced(Columns(l), l.gaps, l.tail)
  }

  function LineTexts(ls: seq<KernelLine>): (texts: seq<string>)
    ensures |texts| == |ls|
  {
    if ls == [] then [] else LineTexts(ls[..|ls| - 1]) + [LineText(ls[|ls| - 1])]
  }

  function ConnsOf(ls: seq<KernelLine>): seq<Conn> {
    if ls == [] then [] else ConnsOf(ls[..|ls| - 1]) + [ls[|ls| - 1].conn]
  }

  /** A header line, a line for each connection, each ended by a newline. */
  function FileText(header: string, ls: seq<KernelLine>): string {
    Joined([header] + LineTexts(ls) + [""], '\n')
  }

  /* ----- The round trip ----- */

  lemma DecodeFourBytes(ip: IPv4)
    ensures DecodeHex(QuadText(ip)) == Some([ip.d, ip.c, ip.b, ip.a])
  {
    hide HexText;
    DecodeByte(ip.d, HexText(ip.c, 2) + (HexText(ip.b, 2) + HexText(ip.a, 2)));
    DecodeByte(ip.c, HexText(ip.b, 2) + HexText(ip.a, 2));
    DecodeByte(ip.b, HexText(ip.a, 2));
    DecodeByte(ip.a, "");
    assert HexText(ip.a, 2) + "" == HexText(ip.a, 2);
    assert [ip.a] + [] == [ip.a];
    assert [ip.d] + ([ip.c] + ([ip.b] + [ip.a])) == [ip.d, ip.c, ip.b, ip.a];
  }

  lemma PortDecodes(n: nat, width: nat)
    requires width > 0 && n < Pow16(width)
    ensures ParseHexInt64(HexText(n, width)) == if n < 0x8000_0000_0000_0000 then Some(n) else None
  {
    HexRoundTrip(n, width);
    hide HexNumber, Pow16;
  }

  lemma QuadSplits(ip: IPv4, port: string)
    requires ':' !in port
    ensures Split(QuadText(ip) + ":" + port, ':') == [QuadText(ip), port]
  {
    var parts := [QuadText(ip), port];
    assert ':' !in QuadText(ip);
    hide HexText, QuadText, Split;
    assert parts[1..] == [port] && Joined(parts[1..], ':') == port;
    assert Joined(parts, ':') == QuadText(ip) + ":" + port;
    SplitJoined(parts, ':');
  }

  /** decodeAddress undoes the little-endian printer of addresses. A port of any length is read as
      a 64-bit number and cut to 32 bits. */
  lemma LongPortDecodes(ip: IPv4, n: nat, width: nat, other: seq<byte> -> string)
    requires width > 0 && n < Pow16(width)
    ensures DecodeAddress(QuadText(ip) + ":" + HexText(n, width), other) ==
      if n < 0x8000_0000_0000_0000 then Some(Addr(DottedQuad(ip), n % 0x1_0000_0000)) else None
  {
    hide *;
    var quad, port := QuadText(ip), HexText(n, width);
    HexHasNoColon(n, width);
    QuadSplits(ip, port);
    DecodeFourBytes(ip);
    PortDecodes(n, width);
    PartsDecode(quad + ":" + port, quad, port, [ip.d, ip.c, ip.b, ip.a], other);
    ReversedText(ip, other);
  }

  lemma HexHasNoColon(n: nat, width: nat)
    ensures ':' !in HexText(n, width)
  {
  }

  lemma PartsDecode(src: string, quad: string, port: string, bytes: seq<byte>, other: seq<byte> -> string)
    requires Split(src, ':') == [quad, port] && DecodeHex(quad) == Some(bytes)
    ensures var n := ParseHexInt64(port);
      DecodeAddress(src, other) == if n.None? then None else Some(Addr(IPText(Reverse(bytes), other), n.value % 0x1_0000_0000))
  {
    hide Split, DecodeHex, ParseHexInt64, IPText, Reverse;
  }

  lemma ReversedText(ip: IPv4, other: seq<byte> -> string)
    ensures IPText(Reverse([ip.d, ip.c, ip.b, ip.a]), other) == DottedQuad(ip)
  {
    hide DottedQuad;
    assert Reverse([ip.d, ip.c, ip.b, ip.a]) == [ip.a, ip.b, ip.c, ip.d];
  }

  /** So it undoes the kernel's printer. */
  lemma AddressDecodes(ip: IPv4, port: nat, other: seq<byte> -> string)
    requires port < 0x10000
    ensures DecodeAddress(AddressText(ip, port), other) == Some(Addr(DottedQuad(ip), port))
  {
    FourDigits();
    hide HexText, QuadText, DottedQuad, DecodeAddress, Pow16;
    assert port % 0x1_0000_0000 == port;
    LongPortDecodes(ip, port, 4, other);
  }

  lemma FourDigits()
    ensures Pow16(4) == 0x10000
  {
    assert Pow16(4) == 16 * Pow16(3) == 16 * (16 * Pow16(2)) == 16 * (16 * (16 * Pow16(1)));
  }

  lemma AddressIsWord(ip: IPv4, port: nat)
    ensures IsWord(AddressText(ip, port))
  {
    var s := AddressText(ip, port);
    assert s == QuadText(ip) + ":" + HexText(port, 4);
    forall i | 0 <= i < |s| ensures !IsSpace(s[i]) {
      assert IsHex(s[i]) || s[i] == ':';
    }
  }

  lemma ColumnsAreWords(l: KernelLine)
    ensures forall i :: 0 <= i < |Columns(l)| ==> IsWord(Columns(l)[i])
  {
    AddressIsWord(l.conn.src, l.conn.sport);
    AddressIsWord(l.conn.dst, l.conn.dport);
    assert IsWord(HexText(l.conn.state, 2));
    hide IsWord;
  }

  /** A line of fewer than ten words is skipped, and so is one whose second or third word is not
      an address; the fourth word is the state. */
  lemma WordsDecide(words: seq<string>, gaps: seq<nat>, tail: nat, other: seq<byte> -> string)
    requires |words| == |gaps| && forall i :: 0 <= i < |words| ==> IsWord(words[i])
    requires forall i :: 1 <= i < |gaps| ==> gaps[i] > 0
    ensures var stat := ParseLine(Spaced(words, gaps, tail), other);
      && (stat.Some? <==> |words| >= 10 && DecodeAddress(words[1], other).Some? && DecodeAddress(words[2], other).Some?)
      && (stat.Some? ==>
            && Some(stat.value.laddr) == DecodeAddress(words[1], other)
            && Some(stat.value.raddr) == DecodeAddress(words[2], other)
            && stat.value.status == ScanUint8(words[3], 0))
  {
    FieldsSpaced(words, gaps, tail);
    hide DecodeAddress, ScanUint8, Spaced, Fields;
  }

  lemma ColumnTexts(l: KernelLine)
    ensures var words := Columns(l);
      && |words| == |l.gaps| >= 10 && LineText(l) == Spaced(words, l.gaps, l.tail)
      && words[1] == AddressText(l.conn.src, l.conn.sport) && words[2] == AddressText(l.conn.dst, l.conn.dport)
      && words[3] == HexText(l.conn.state, 2)
  {
    hide HexText, AddressText, Spaced;
  }

  lemma TwoDigitState(n: nat)
    requires n < 0x100
    ensures ScanUint8(HexText(n, 2), 0) == n
  {
    assert Pow16(2) == 16 * Pow16(1) == 0x100;
    StateScans(n, 2);
  }

  lemma {:induction false} LineDecodes(l: KernelLine, other: seq<byte> -> string)
    ensures ParseLine(LineText(l), other) == Some(Stat(l.conn))
  {
    ColumnTexts(l);
    hide Columns, HexText, AddressText, Spaced, LineText, ParseLine, DecodeAddress, DottedQuad, ScanUint8, IsWord;
    ColumnsAreWords(l);
    WordsDecide(Columns(l), l.gaps, l.tail, other);
    AddressDecodes(l.conn.src, l.conn.sport, other);
    AddressDecodes(l.conn.dst, l.conn.dport, other);
    TwoDigitState(l.conn.state);
  }

  lemma {:induction false} SpacedOneLine(words: seq<string>, gaps: seq<nat>, tail: nat)
    requires |words| == |gaps| && forall i :: 0 <= i < |words| ==> IsWord(words[i])
    ensures '\n' !in Spaced(words, gaps, tail)
  {
    if words != [] {
      SpacedOneLine(words[1..], gaps[1..], tail);
      assert IsSpace('\n');
    }
  }

  lemma {:induction false} LinesAreLines(ls: seq<KernelLine>)
    ensures forall i :: 0 <= i < |ls| ==> '\n' !in LineTexts(ls)[i]
  {
    if ls != [] {
      var n := |ls| - 1;
      LinesAreLines(ls[..n]);
      ColumnsAreWords(ls[n]);
      SpacedOneLine(Columns(ls[n]), ls[n].gaps, ls[n].tail);
    }
  }

  lemma {:induction false} LinesParse(ls: seq<KernelLine>, other: seq<byte> -> string)
    ensures ParseLines(LineTexts(ls), other) == Stats(ConnsOf(ls))
  {
    if ls != [] {
      var n := |ls| - 1;
      LinesParse(ls[..n], other);
      LineDecodes(ls[n], other);
      var texts, conns := LineTexts(ls[..n]), ConnsOf(ls[..n]);
      assert LineTexts(ls) == texts + [LineText(ls[n])] && ConnsOf(ls) == conns + [ls[n].conn];
      hide *;
      OneMoreLine(texts, LineText(ls[n]), other);
      OneMoreStat(conns, ls[n].conn);
    }
  }

  lemma OneMoreLine(texts: seq<string>, text: string, other: seq<byte> -> string)
    ensures ParseLines(texts + [text], other) == ParseLines(texts, other) +
      if ParseLine(text, other).Some? then [ParseLine(text, other).value] else []
  {
    hide ParseLine;
    assert (texts + [text])[..|texts|] == texts;
  }

  lemma OneMoreStat(conns: seq<Conn>, c: Conn)
    ensures Stats(conns + [c]) == Stats(conns) + [Stat(c)]
  {
    hide Stat;
  }

  lemma FileSplits(header: string, ls: seq<KernelLine>)
    requires '\n' !in header
    ensures Split(FileText(header, ls), '\n')[1..] == LineTexts(ls) + [""]
  {
    var texts := LineTexts(ls);
    LinesAreLines(ls);
    hide LineTexts, Split, Joined;
    SplitJoined([header] + texts + [""], '\n');
    assert ([header] + texts + [""])[1..] == texts + [""];
  }

  lemma LastLineEmpty(texts: seq<string>, other: seq<byte> -> string)
    ensures ParseLines(texts + [""], other) == ParseLines(texts, other)
  {
    assert ParseLine("", other) == None;
    OneMoreLine(texts, "", other);
  }

  /** Reading what the kernel prints gives the connections back, in order, whatever the other
      columns hold and however they are aligned. */
  lemma FileRoundTrip(header: string, ls: seq<KernelLine>, other: seq<byte> -> string)
    requires '\n' !in header
    ensures ParseLines(Split(FileText(header, ls), '\n')[1..], other) == Stats(ConnsOf(ls))
  {
    FileSplits(header, ls);
    LastLineEmpty(LineTexts(ls), other);
    LinesParse(ls, other);
  }

  /* ----- Other lines ----- */

  /** An address has exactly one colon. */
  lemma OneColon(parts: seq<string>, other: seq<byte> -> string)
    requires parts != [] && |parts| != 2 && forall i :: 0 <= i < |parts| ==> ':' !in parts[i]
    ensures DecodeAddress(Joined(parts, ':'), other) == None
  {
    SplitJoined(parts, ':');
    hide Split, Joined, ParseHexInt64, DecodeHex;
  }

  /** An address with an odd number of digits, or another character, does not decode. */
  lemma {:induction false} HexDigitsOnly(s: string)
    ensures DecodeHex(s).Some? <==> |s| % 2 == 0 && forall i :: 0 <= i < |s| ==> IsHex(s[i])
  {
    if |s| >= 2 {
      HexDigitsOnly(s[2..]);
      assert forall i :: 2 <= i < |s| ==> s[i] == s[2..][i - 2];
    }
  }

  /** A state is read digit by digit: up to 255, and no further. */
  lemma {:induction false} ScanAppend(s: string, n: byte, t: string)
    requires forall i :: 0 <= i < |s| ==> IsHex(s[i])
    ensures ScanUint8(s + t, n) == if Overflows(s, n) then 255 else ScanUint8(t, ScanUint8(s, n))
  {
    if s == "" {
      assert s + t == t;
    } else if 16 * n + HexValue(s[0]) <= 255 {
      assert (s + t)[1..] == s[1..] + t;
      ScanAppend(s[1..], 16 * n + HexValue(s[0]), t);
    }
  }

  predicate Overflows(s: string, n: byte)
    requires forall i :: 0 <= i < |s| ==> IsHex(s[i])
  {
    s != "" && (16 * n + HexValue(s[0]) > 255 || Overflows(s[1..], 16 * n + HexValue(s[0])))
  }

  lemma {:induction false} OverflowAppend(s: string, n: byte, c: char)
    requires IsHex(c) && forall i :: 0 <= i < |s| ==> IsHex(s[i])
    ensures Overflows(s + [c], n) <==> Overflows(s, n) || 16 * ScanUint8(s, n) + HexValue(c) > 255
  {
    if s == "" {
      assert s + [c] == [c] && [c][1..] == "";
    } else if 16 * n + HexValue(s[0]) <= 255 {
      assert (s + [c])[1..] == s[1..] + [c];
      OverflowAppend(s[1..], 16 * n + HexValue(s[0]), c);
    } else {
      assert (s + [c])[0] == s[0];
    }
  }

  /** A hexadecimal state is its value, or 255 if that is larger. */
  lemma {:induction false} StateScans(n: nat, width: nat)
    requires n < Pow16(width)
    ensures ScanUint8(HexText(n, width), 0) == if n <= 255 then n else 255
    ensures Overflows(HexText(n, width), 0) <==> n > 255
  {
    if width > 0 {
      var front, c := HexText(n / 16, width - 1), HexDigit(n % 16);
      StateScans(n / 16, width - 1);
      ScanAppend(front, 0, [c]);
      OverflowAppend(front, 0, c);
      assert [c][1..] == "";
    }
  }

  /** A state with another character is 0, whatever follows, unless it was too large before. */
  lemma MalformedState(n: nat, width: nat, c: char, rest: string)
    requires n < Pow16(width) && !IsHex(c)
    ensures ScanUint8(HexText(n, width) + ([c] + rest), 0) == if n <= 255 then 0 else 255
  {
    StateScans(n, width);
    ScanAppend(HexText(n, width), 0, [c] + rest);
  }

  /** A port may have '_' before a digit. */
  lemma UnderscoreSkipped(n: nat, width: nat)
    requires width > 0 && n < Pow16(width) && n < 0x8000_0000_0000_0000
    ensures ParseHexInt64("_" + HexText(n, width)) == Some(n)
    ensures ParseHexInt64(HexText(n, width) + "_") == None
  {
    var s := HexText(n, width);
    HexRoundTrip(n, width);
    hide HexText, HexNumber, Pow16;
    UnderscoreFirst(s);
    UnderscoreLast(s);
  }

  lemma UnderscoreFirst(s: string)
    requires s != "" && forall i :: 0 <= i < |s| ==> IsHex(s[i])
    ensures ParseHexInt64("_" + s) == if HexNumber(s) < 0x8000_0000_0000_0000 then Some(HexNumber(s)) else None
  {
    LeadingUnderscore(s);
    hide HexNumber;
    var t := "_" + s;
    assert t[0] == '_' && t[1] == s[0] && forall i :: 1 <= i < |t| ==> t[i] == s[i - 1];
  }

  lemma UnderscoreLast(s: string)
    ensures ParseHexInt64(s + "_") == None
  {
    hide HexNumber;
    assert (s + "_")[|s|] == '_';
  }

  lemma {:induction false} LeadingUnderscore(s: string)
    requires forall i :: 0 <= i < |s| ==> IsHex(s[i]) || s[i] == '_'
    ensures HexNumber("_" + s) == HexNumber(s)
  {
    var n := |s|;
    assert ("_" + s)[..n] == if n == 0 then "" else "_" + s[..n - 1];
    if n > 0 {
      LeadingUnderscore(s[..n - 1]);
    }
  }
}
