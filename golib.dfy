/**
 * The parts of Go's standard library that the status rendering relies on:
 * strings.Join, hex.EncodeToString, big.Int.Bytes and the fmt verbs %d and %q.
 * Each encoder comes with the decoder it is the inverse of and a round-trip lemma.
 */
module GoLib {
  import opened Wrappers

  newtype byte = x: int | 0 <= x < 256

  // ---------------------------------------------------------------- strings.Join

  /** strings.Join: the elements with `sep` between consecutive ones. */
  function Join(elems: seq<string>, sep: string): string
  {
    if |elems| == 0 then ""
    else if |elems| == 1 then elems[0]
    else elems[0] + sep + Join(elems[1..], sep)
  }

  /** Sum of the lengths of the elements. */
  function TotalLength(elems: seq<string>): nat
  {
    if elems == [] then 0 else |elems[0]| + TotalLength(elems[1..])
  }

  /** The joined string holds every element and one separator between each pair, and nothing else. */
  lemma {:induction false} JoinLength(elems: seq<string>, sep: string)
    ensures |elems| > 0 ==> |Join(elems, sep)| == TotalLength(elems) + (|elems| - 1) * |sep|
    ensures |elems| == 0 ==> Join(elems, sep) == ""
  {
    if |elems| > 1 {
      JoinLength(elems[1..], sep);
    }
  }

  /** Joining a non-empty prefix and a non-empty suffix puts one separator between them. */
  lemma {:induction false} JoinAppend(a: seq<string>, b: seq<string>, sep: string)
    requires |a| > 0 && |b| > 0
    ensures Join(a + b, sep) == Join(a, sep) + sep + Join(b, sep)
  {
    if |a| == 1 {
      assert (a + b)[1..] == b;
    } else {
      assert (a + b)[1..] == a[1..] + b;
      JoinAppend(a[1..], b, sep);
    }
  }

  // ------------------------------------------------------- hex.EncodeToString

  /** The lower-case hexadecimal digit of a value below 16. */
  function HexDigit(d: int): (c: char)
    requires 0 <= d < 16
    ensures ('0' <= c <= '9') || ('a' <= c <= 'f')
  {
    if d < 10 then ('0' as int + d) as char else ('a' as int + d - 10) as char
  }

  /** The value of a lower-case hexadecimal digit, or -1 for any other character. */
  function HexValue(c: char): (v: int)
    ensures -1 <= v < 16
    ensures 0 <= v ==> HexDigit(v) == c
  {
    if '0' <= c <= '9' then c as int - '0' as int
    else if 'a' <= c <= 'f' then c as int - 'a' as int + 10
    else -1
  }

  /** hex.EncodeToString: two lower-case digits per byte, high nibble first. */
  function HexEncode(bs: seq<byte>): (r: string)
    ensures |r| == 2 * |bs|
  {
    if bs == [] then ""
    else [HexDigit(bs[0] as int / 16), HexDigit(bs[0] as int % 16)] + HexEncode(bs[1..])
  }

  /** hex.DecodeString restricted to lower-case digits. */
  function HexDecode(s: string): Option<seq<byte>>
  {
    if |s| == 0 then Some([])
    else if |s| == 1 then None
    else
      var hi, lo := HexValue(s[0]), HexValue(s[1]);
      if hi < 0 || lo < 0 then None
      else match HexDecode(s[2..])
        case None => None
        case Some(rest) => Some([(hi * 16 + lo) as byte] + rest)
  }

  /** Decoding undoes hex.EncodeToString. */
  lemma {:induction false} HexRoundTrip(bs: seq<byte>)
    ensures HexDecode(HexEncode(bs)) == Some(bs)
  {
    if bs != [] {
      var s := HexEncode(bs);
      assert s[2..] == HexEncode(bs[1..]);
      HexRoundTrip(bs[1..]);
      assert [bs[0]] + bs[1..] == bs;
    }
  }

  // ------------------------------------------------------------- big.Int.Bytes

  function Abs(i: int): nat
  {
    if i < 0 then -i else i
  }

  /** big.Int.Bytes for a magnitude: big-endian, without leading zero bytes; zero gives no bytes. */
  function BigEndianBytes(n: nat): (r: seq<byte>)
    ensures n == 0 <==> r == []
    ensures |r| > 0 ==> r[0] != 0
  {
    if n == 0 then [] else BigEndianBytes(n / 256) + [(n % 256) as byte]
  }

  /** The number a big-endian byte string denotes. */
  function FromBigEndian(bs: seq<byte>): nat
  {
    if bs == [] then 0 else FromBigEndian(bs[..|bs| - 1]) * 256 + bs[|bs| - 1] as int
  }

  /** Reading back the bytes of big.Int.Bytes gives the magnitude. */
  lemma {:induction false} BigEndianRoundTrip(n: nat)
    ensures FromBigEndian(BigEndianBytes(n)) == n
  {
    if n > 0 {
      var r := BigEndianBytes(n);
      assert r[..|r| - 1] == BigEndianBytes(n / 256);
      BigEndianRoundTrip(n / 256);
    }
  }

  // ------------------------------------------------------------------- fmt %d

  function DigitChar(d: int): (c: char)
    requires 0 <= d < 10
    ensures '0' <= c <= '9'
  {
    ('0' as int + d) as char
  }

  /** The decimal digits of a natural number, without leading zeros. */
  function DecimalDigits(n: nat): (r: string)
    ensures |r| > 0
    ensures forall i :: 0 <= i < |r| ==> '0' <= r[i] <= '9'
  {
    if n < 10 then [DigitChar(n)] else DecimalDigits(n / 10) + [DigitChar(n % 10)]
  }

  /** fmt's %d: a minus sign for negative values, then the decimal digits of the magnitude. */
  function FormatInt(i: int): string
  {
    if i < 0 then "-" + DecimalDigits(-i) else DecimalDigits(i)
  }

  function ParseDigits(s: string): int
  {
    if s == [] then 0 else ParseDigits(s[..|s| - 1]) * 10 + (s[|s| - 1] as int - '0' as int)
  }

  /** strconv.Atoi on what %d prints. */
  function ParseInt(s: string): int
  {
    if |s| > 0 && s[0] == '-' then -ParseDigits(s[1..]) else ParseDigits(s)
  }

  lemma {:induction false} DecimalRoundTrip(n: nat)
    ensures ParseDigits(DecimalDigits(n)) == n
  {
    if n >= 10 {
      var r := DecimalDigits(n);
      assert r[..|r| - 1] == DecimalDigits(n / 10);
      DecimalRoundTrip(n / 10);
    }
  }

  /** The number printed by %d can be read back, so a message built with %d names it. */
  lemma FormatIntRoundTrip(i: int)
    ensures ParseInt(FormatInt(i)) == i
  {
    if i < 0 {
      assert ("-" + DecimalDigits(-i))[1..] == DecimalDigits(-i);
      DecimalRoundTrip(-i);
    } else {
      DecimalRoundTrip(i);
    }
  }

  // ------------------------------------------------------------------- fmt %q

  /**
   * strconv.Quote's two-character escapes: quote, backslash, and the control
   * characters \a \b \f \n \r \t \v.
   */
  function EscapeChar(c: char): string
  {
    if c == '"' then "\\\""
    else if c == '\\' then "\\\\"
    else if c == '\n' then "\\n"
    else if c == '\t' then "\\t"
    else if c == '\r' then "\\r"
    else if c == '\U{7}' then "\\a"
    else if c == '\U{8}' then "\\b"
    else if c == '\U{C}' then "\\f"
    else if c == '\U{B}' then "\\v"
    else [c]
  }

  function Escape(s: string): string
  {
    if s == [] then "" else EscapeChar(s[0]) + Escape(s[1..])
  }

  /** fmt's %q on a string: the escaped text between double quotes. */
  function Quote(s: string): string
  {
    "\"" + Escape(s) + "\""
  }

  function Unescape(s: string): Option<string>
  {
    if s == [] then Some([])
    else if s[0] == '"' then None
    else if s[0] != '\\' then
      match Unescape(s[1..])
      case None => None
      case Some(rest) => Some([s[0]] + rest)
    else if |s| < 2 then None
    else
      var c :=
        if s[1] == '"' then Some('"')
        else if s[1] == '\\' then Some('\\')
        else if s[1] == 'n' then Some('\n')
        else if s[1] == 't' then Some('\t')
        else if s[1] == 'r' then Some('\r')
        else if s[1] == 'a' then Some('\U{7}')
        else if s[1] == 'b' then Some('\U{8}')
        else if s[1] == 'f' then Some('\U{C}')
        else if s[1] == 'v' then Some('\U{B}')
        else None;
      match c
      case None => None
      case Some(ch) =>
        match Unescape(s[2..])
        case None => None
        case Some(rest) => Some([ch] + rest)
  }

  /** strconv.Unquote for double-quoted strings. */
  function Unquote(q: string): Option<string>
  {
    if |q| >= 2 && q[0] == '"' && q[|q| - 1] == '"' then Unescape(q[1..|q| - 1]) else None
  }

  /** Unescaping one escaped character followed by more text. */
  lemma UnescapeEscapeChar(c: char, rest: string)
    ensures Unescape(EscapeChar(c) + rest) ==
      match Unescape(rest)
      case None => None
      case Some(r) => Some([c] + r)
  {
    var e := EscapeChar(c);
    if |e| == 2 {
      assert (e + rest)[0] == '\\' && (e + rest)[1] == e[1];
      assert (e + rest)[2..] == rest;
    } else {
      assert e == [c] && c != '"' && c != '\\';
      assert (e + rest)[0] == c;
      assert (e + rest)[1..] == rest;
    }
  }

  lemma {:induction false} EscapeRoundTrip(s: string)
    ensures Unescape(Escape(s)) == Some(s)
  {
    if s != [] {
      EscapeRoundTrip(s[1..]);
      UnescapeEscapeChar(s[0], Escape(s[1..]));
      assert [s[0]] + s[1..] == s;
    }
  }

  /** A name printed with %q can be recovered from the message exactly. */
  lemma QuoteRoundTrip(s: string)
    ensures Unquote(Quote(s)) == Some(s)
  {
    var q := Quote(s);
    assert q[1..|q| - 1] == Escape(s);
    EscapeRoundTrip(s);
  }

  /** Characters that %q would escape, in the model above. */
  predicate NeedsEscape(c: char)
  {
    c == '"' || c == '\\' || c == '\n' || c == '\t' || c == '\r' ||
    c == '\U{7}' || c == '\U{8}' || c == '\U{C}' || c == '\U{B}'
  }

  lemma {:induction false} EscapePlain(s: string)
    requires forall i :: 0 <= i < |s| ==> !NeedsEscape(s[i])
    ensures Escape(s) == s
  {
    if s != [] {
      EscapePlain(s[1..]);
      assert [s[0]] + s[1..] == s;
    }
  }

  /** For a name with no character that needs escaping, %q just adds the quotes. */
  lemma QuotePlain(s: string)
    requires forall i :: 0 <= i < |s| ==> !NeedsEscape(s[i])
    ensures Quote(s) == "\"" + s + "\""
  {
    EscapePlain(s);
  }
}
