/** Unpadded base64url, section 5 of RFC 4648, as the runtime library encodes and decodes it. */
module Base64Url {
  import opened Wrappers

  type byte = b: int | 0 <= b < 256

  type sextet = d: int | 0 <= d < 64

  function Symbol(d: sextet): (c: char)
  {
    if d < 26 then (d + 'A' as int) as char
    else if d < 52 then (d - 26 + 'a' as int) as char
    else if d < 62 then (d - 52 + '0' as int) as char
    else if d == 62 then '-'
    else '_'
  }

  function Digit(c: char): (d: Option<sextet>)
  {
    if 'A' <= c <= 'Z' then Some(c as int - 'A' as int)
    else if 'a' <= c <= 'z' then Some(c as int - 'a' as int + 26)
    else if '0' <= c <= '9' then Some(c as int - '0' as int + 52)
    else if c == '-' then Some(62)
    else if c == '_' then Some(63)
    else None
  }

  predicate IsSymbol(c: char) { Digit(c).Some? }

  lemma DigitOfSymbol(d: sextet)
    ensures Digit(Symbol(d)) == Some(d)
  {
  }

  /* ---------- Encoding ---------- */

  function Encode(data: seq<byte>): (s: string)
  {
    if data == [] then ""
    else if |data| == 1 then
      [Symbol(data[0] / 4), Symbol(data[0] % 4 * 16)]
    else if |data| == 2 then
      [Symbol(data[0] / 4), Symbol(data[0] % 4 * 16 + data[1] / 16), Symbol(data[1] % 16 * 4)]
    else
      [Symbol(data[0] / 4), Symbol(data[0] % 4 * 16 + data[1] / 16),
       Symbol(data[1] % 16 * 4 + data[2] / 64), Symbol(data[2] % 64)] + Encode(data[3..])
  }

  /* ---------- Decoding ---------- */

  /** Line breaks are skipped wherever they stand. */
  function WithoutLineBreaks(s: string): (t: string)
  {
    if s == "" then ""
    else (if s[0] == '\r' || s[0] == '\n' then "" else [s[0]]) + WithoutLineBreaks(s[1..])
  }

  /** A lone last symbol is an error; spare low bits of a short last group are ignored. */
  function DecodeSymbols(s: string): (r: Option<seq<byte>>)
  {
    if s == "" then Some([])
    else if |s| == 1 || Digit(s[0]).None? || Digit(s[1]).None? then None
    else
      var first := Digit(s[0]).value * 4 + Digit(s[1]).value / 16;
      if |s| == 2 then Some([first])
      else if Digit(s[2]).None? then None
      else
        var second := Digit(s[1]).value % 16 * 16 + Digit(s[2]).value / 4;
        if |s| == 3 then Some([first, second])
        else if Digit(s[3]).None? then None
        else
          var third := Digit(s[2]).value % 4 * 64 + Digit(s[3]).value;
          match DecodeSymbols(s[4..])
          case None => None
          case Some(rest) => Some([first, second, third] + rest)
  }

  function Decode(s: string): (r: Option<seq<byte>>)
  {
    DecodeSymbols(WithoutLineBreaks(s))
  }

  /* ---------- Round trip ---------- */

  lemma {:induction false} EncodeUsesAlphabet(data: seq<byte>)
    ensures forall c | c in Encode(data) :: IsSymbol(c)
  {
    if data != [] {
      DigitOfSymbol(data[0] / 4);
      if |data| == 1 {
        DigitOfSymbol(data[0] % 4 * 16);
      } else {
        DigitOfSymbol(data[0] % 4 * 16 + data[1] / 16);
        if |data| == 2 {
          DigitOfSymbol(data[1] % 16 * 4);
        } else {
          DigitOfSymbol(data[1] % 16 * 4 + data[2] / 64);
          DigitOfSymbol(data[2] % 64);
          EncodeUsesAlphabet(data[3..]);
        }
      }
    }
  }

  lemma {:induction false} SymbolsHaveNoLineBreaks(s: string)
    requires forall c | c in s :: IsSymbol(c)
    ensures WithoutLineBreaks(s) == s
  {
    if s != "" {
      assert s[0] in s;
      SymbolsHaveNoLineBreaks(s[1..]);
    }
  }

  lemma DecodeOne(a: byte)
    ensures DecodeSymbols([Symbol(a / 4), Symbol(a % 4 * 16)]) == Some([a])
  {
    DigitOfSymbol(a / 4);
    DigitOfSymbol(a % 4 * 16);
  }

  lemma DecodeTwo(a: byte, b: byte)
    ensures DecodeSymbols([Symbol(a / 4), Symbol(a % 4 * 16 + b / 16), Symbol(b % 16 * 4)]) == Some([a, b])
  {
    DigitOfSymbol(a / 4);
    DigitOfSymbol(a % 4 * 16 + b / 16);
    DigitOfSymbol(b % 16 * 4);
  }

  lemma DecodeFour(p: sextet, q: sextet, r: sextet, t: sextet, tail: string, rest: seq<byte>)
    requires DecodeSymbols(tail) == Some(rest)
    ensures DecodeSymbols([Symbol(p), Symbol(q), Symbol(r), Symbol(t)] + tail)
      == Some([p * 4 + q / 16, q % 16 * 16 + r / 4, r % 4 * 64 + t] + rest)
  {
    DigitOfSymbol(p);
    DigitOfSymbol(q);
    DigitOfSymbol(r);
    DigitOfSymbol(t);
    assert ([Symbol(p), Symbol(q), Symbol(r), Symbol(t)] + tail)[4..] == tail;
  }

  /** A byte cut after its high bits, each part packed beside another, is found again. */
  lemma BitsRejoin(a: byte, high: int, low: int, unit: int)
    requires (unit == 4 && high == 16) || (unit == 16 && high == 4) || (unit == 64 && high == 1)
    requires 0 <= low < high
    ensures a / unit * unit + (a % unit * high + low) / high == a
    ensures (a % unit * high + low) % high == low
  {
  }

  lemma DecodeGroup(a: byte, b: byte, c: byte, tail: string, rest: seq<byte>)
    requires DecodeSymbols(tail) == Some(rest)
    ensures DecodeSymbols([Symbol(a / 4), Symbol(a % 4 * 16 + b / 16), Symbol(b % 16 * 4 + c / 64), Symbol(c % 64)] + tail)
      == Some([a, b, c] + rest)
  {
    BitsRejoin(a, 16, b / 16, 4);
    BitsRejoin(b, 4, c / 64, 16);
    DecodeFour(a / 4, a % 4 * 16 + b / 16, b % 16 * 4 + c / 64, c % 64, tail, rest);
  }

  lemma {:induction false} DecodeSymbolsOfEncode(data: seq<byte>)
    ensures DecodeSymbols(Encode(data)) == Some(data)
  {
    if |data| == 1 {
      DecodeOne(data[0]);
      assert data == [data[0]];
    } else if |data| == 2 {
      DecodeTwo(data[0], data[1]);
      assert data == [data[0], data[1]];
    } else if |data| > 2 {
      DecodeSymbolsOfEncode(data[3..]);
      DecodeGroup(data[0], data[1], data[2], Encode(data[3..]), data[3..]);
      assert data == [data[0], data[1], data[2]] + data[3..];
    }
  }

  /** Decoding undoes encoding for every byte string. */
  lemma DecodeOfEncode(data: seq<byte>)
    ensures Decode(Encode(data)) == Some(data)
  {
    EncodeUsesAlphabet(data);
    SymbolsHaveNoLineBreaks(Encode(data));
    DecodeSymbolsOfEncode(data);
  }

  /** No separator of the envelope or of a token can occur in encoded data. */
  lemma EncodeHasNoSeparator(data: seq<byte>)
    ensures ':' !in Encode(data) && '.' !in Encode(data)
  {
    EncodeUsesAlphabet(data);
  }
}
