/** Unpadded base64url (sections 5 and 3.5 of RFC 4648). */
module Base64Url {
  import opened Wrappers
  import opened Json

  type Sextet = n: int | 0 <= n < 64

  function Symbol(d: Sextet): char {
    if d < 26 then ('A' as int + d) as char
    else if d < 52 then ('a' as int + (d - 26)) as char
    else if d < 62 then ('0' as int + (d - 52)) as char
    else if d == 62 then '-'
    else '_'
  }

  predicate IsSymbol(c: char) {
    'A' <= c <= 'Z' || 'a' <= c <= 'z' || '0' <= c <= '9' || c == '-' || c == '_'
  }

  function Digit(c: char): Sextet
    requires IsSymbol(c)
  {
    if 'A' <= c <= 'Z' then c as int - 'A' as int
    else if 'a' <= c <= 'z' then 26 + (c as int - 'a' as int)
    else if '0' <= c <= '9' then 52 + (c as int - '0' as int)
    else if c == '-' then 62
    else 63
  }

  lemma SymbolDigit(d: Sextet)
    ensures IsSymbol(Symbol(d)) && Digit(Symbol(d)) == d
  {
  }

  lemma DigitSymbol(c: char)
    requires IsSymbol(c)
    ensures Symbol(Digit(c)) == c
  {
  }

  /** Table 2 of RFC 4648: where its four runs of symbols begin and end, and that each symbol
      within a run is followed by the next character. */
  lemma SymbolTable(d: Sextet)
    ensures Symbol(0) == 'A' && Symbol(25) == 'Z' && Symbol(26) == 'a' && Symbol(51) == 'z'
    ensures Symbol(52) == '0' && Symbol(61) == '9' && Symbol(62) == '-' && Symbol(63) == '_'
    ensures d < 61 && d != 25 && d != 51 ==> Symbol(d + 1) as int == Symbol(d) as int + 1
  {
  }

  predicate InAlphabet(s: string) {
    forall i :: 0 <= i < |s| ==> IsSymbol(s[i])
  }

  // The four six-bit digits of three bytes, and the three bytes of four digits.
  function Six0(a: Byte): Sextet { a / 4 }
  function Six1(a: Byte, b: Byte): Sextet { a % 4 * 16 + b / 16 }
  function Six2(b: Byte, c: Byte): Sextet { b % 16 * 4 + c / 64 }
  function Six3(c: Byte): Sextet { c % 64 }
  function Byte0(p: Sextet, q: Sextet): Byte { p * 4 + q / 16 }
  function Byte1(q: Sextet, r: Sextet): Byte { q % 16 * 16 + r / 4 }
  function Byte2(r: Sextet, t: Sextet): Byte { r % 4 * 64 + t }

  lemma BytesOfSixes(a: Byte, b: Byte, c: Byte)
    ensures Byte0(Six0(a), Six1(a, b)) == a
    ensures Byte1(Six1(a, b), Six2(b, c)) == b
    ensures Byte2(Six2(b, c), Six3(c)) == c
  {
  }

  lemma SixesOfBytes(p: Sextet, q: Sextet, r: Sextet, t: Sextet)
    ensures Six0(Byte0(p, q)) == p
    ensures Six1(Byte0(p, q), Byte1(q, r)) == q
    ensures Six2(Byte1(q, r), Byte2(r, t)) == r
    ensures Six3(Byte2(r, t)) == t
    ensures Six1(Byte0(p, q), 0) == q <==> q % 16 == 0
    ensures Six2(Byte1(q, r), 0) == r <==> r % 4 == 0
  {
  }

  /** The six-bit digits of the data, the last group padded with zero bits. */
  function Pack(data: Bytes): seq<Sextet> {
    if |data| == 0 then []
    else if |data| == 1 then [Six0(data[0]), Six1(data[0], 0)]
    else if |data| == 2 then [Six0(data[0]), Six1(data[0], data[1]), Six2(data[1], 0)]
    else
      [Six0(data[0]), Six1(data[0], data[1]), Six2(data[1], data[2]), Six3(data[2])] + Pack(data[3..])
  }

  /** The bytes of the digits; the unused low bits of the last group are dropped. */
  function Unpack(digits: seq<Sextet>): Bytes
    requires |digits| % 4 != 1
  {
    if |digits| == 0 then []
    else if |digits| == 2 then [Byte0(digits[0], digits[1])]
    else if |digits| == 3 then [Byte0(digits[0], digits[1]), Byte1(digits[1], digits[2])]
    else
      [Byte0(digits[0], digits[1]), Byte1(digits[1], digits[2]), Byte2(digits[2], digits[3])] + Unpack(digits[4..])
  }

  function Symbols(digits: seq<Sextet>): string {
    seq(|digits|, i requires 0 <= i < |digits| => Symbol(digits[i]))
  }

  function Digits(s: string): seq<Sextet>
    requires InAlphabet(s)
  {
    seq(|s|, i requires 0 <= i < |s| => Digit(s[i]))
  }

  /** `b64url_encode`. */
  function Encode(data: Bytes): string {
    Symbols(Pack(data))
  }

  /** `b64url_decode_strict`: decode, then refuse unless encoding gives the text back. */
  function DecodeStrict(s: string): Option<Bytes> {
    if !InAlphabet(s) || |s| % 4 == 1 then None
    else
      var decoded := Unpack(Digits(s));
      if Encode(decoded) != s then None else Some(decoded)
  }

  /** The unused low bits of an incomplete final group are zero. */
  predicate TrailingBitsZero(digits: seq<Sextet>) {
    && (|digits| % 4 == 2 ==> digits[|digits| - 1] % 16 == 0)
    && (|digits| % 4 == 3 ==> digits[|digits| - 1] % 4 == 0)
  }

  lemma SymbolsDigits(digits: seq<Sextet>)
    ensures InAlphabet(Symbols(digits)) && Digits(Symbols(digits)) == digits
  {
    forall i | 0 <= i < |digits| ensures IsSymbol(Symbols(digits)[i]) && Digit(Symbols(digits)[i]) == digits[i] {
      SymbolDigit(digits[i]);
    }
  }

  lemma DigitsSymbols(s: string)
    requires InAlphabet(s)
    ensures Symbols(Digits(s)) == s
  {
    forall i | 0 <= i < |s| ensures Symbol(Digits(s)[i]) == s[i] {
      DigitSymbol(s[i]);
    }
  }

  lemma {:induction false} PackLength(data: Bytes)
    ensures |Pack(data)| % 4 != 1
    ensures Pack(data) == [] <==> data == []
  {
    if |data| >= 3 { PackLength(data[3..]); }
  }

  lemma {:induction false} UnpackOfPack(data: Bytes)
    ensures |Pack(data)| % 4 != 1 && Unpack(Pack(data)) == data
  {
    hide Six0, Six1, Six2, Six3, Byte0, Byte1, Byte2;
    PackLength(data);
    if |data| == 1 {
      BytesOfSixes(data[0], 0, 0);
    } else if |data| == 2 {
      BytesOfSixes(data[0], data[1], 0);
    } else if |data| >= 3 {
      UnpackOfPack(data[3..]);
      BytesOfSixes(data[0], data[1], data[2]);
      assert Pack(data)[4..] == Pack(data[3..]);
      assert data == [data[0], data[1], data[2]] + data[3..];
    }
  }

  lemma CancelPrefix<T>(prefix: seq<T>, x: seq<T>, y: seq<T>)
    ensures prefix + x == prefix + y <==> x == y
  {
    if prefix + x == prefix + y {
      assert x == (prefix + x)[|prefix|..];
      assert y == (prefix + y)[|prefix|..];
    }
  }

  lemma {:induction false} PackOfUnpack(digits: seq<Sextet>)
    requires |digits| % 4 != 1
    ensures Pack(Unpack(digits)) == digits <==> TrailingBitsZero(digits)
  {
    hide Pack, Unpack;
    if |digits| < 4 {
      PackOfUnpackShort(digits);
    } else {
      var rest, group := digits[4..], digits[..4];
      PackOfUnpack(rest);
      PackOfUnpackStep(digits);
      CancelPrefix(group, Pack(Unpack(rest)), rest);
      assert digits == group + rest;
      if |rest| > 0 { assert rest[|rest| - 1] == digits[|digits| - 1]; }
    }
  }

  lemma PackOfUnpackShort(digits: seq<Sextet>)
    requires |digits| % 4 != 1 && |digits| < 4
    ensures Pack(Unpack(digits)) == digits <==> TrailingBitsZero(digits)
  {
    hide Six0, Six1, Six2, Six3, Byte0, Byte1, Byte2, Pack, Unpack;
    if |digits| == 0 {
      Nothing(digits);
    } else if |digits| == 2 {
      Two(digits[0], digits[1]);
      assert digits == [digits[0], digits[1]];
      SixesOfBytes(digits[0], digits[1], 0, 0);
    } else {
      Three(digits[0], digits[1], digits[2]);
      assert digits == [digits[0], digits[1], digits[2]];
      SixesOfBytes(digits[0], digits[1], digits[2], 0);
    }
  }

  lemma Nothing(digits: seq<Sextet>)
    requires digits == []
    ensures Pack(Unpack(digits)) == []
  {
  }

  lemma Two(p: Sextet, q: Sextet)
    ensures Pack(Unpack([p, q])) == [Six0(Byte0(p, q)), Six1(Byte0(p, q), 0)]
  {
    hide Six0, Six1, Byte0;
  }

  lemma Three(p: Sextet, q: Sextet, r: Sextet)
    ensures Pack(Unpack([p, q, r])) ==
            [Six0(Byte0(p, q)), Six1(Byte0(p, q), Byte1(q, r)), Six2(Byte1(q, r), 0)]
  {
    hide Six0, Six1, Six2, Byte0, Byte1;
  }

  lemma PackOfUnpackStep(digits: seq<Sextet>)
    requires |digits| % 4 != 1 && |digits| >= 4
    ensures Pack(Unpack(digits)) == digits[..4] + Pack(Unpack(digits[4..]))
  {
    hide Six0, Six1, Six2, Six3, Byte0, Byte1, Byte2, Pack, Unpack;
    var a, b, c, d := digits[0], digits[1], digits[2], digits[3];
    UnpackGroup(digits);
    SixesOfBytes(a, b, c, d);
    PackGroup(Byte0(a, b), Byte1(b, c), Byte2(c, d), Unpack(digits[4..]));
    assert digits[..4] == [a, b, c, d];
  }

  lemma UnpackGroup(digits: seq<Sextet>)
    requires |digits| % 4 != 1 && |digits| >= 4
    ensures Unpack(digits) ==
            [Byte0(digits[0], digits[1]), Byte1(digits[1], digits[2]), Byte2(digits[2], digits[3])]
              + Unpack(digits[4..])
  {
    hide Byte0, Byte1, Byte2;
  }

  lemma PackGroup(x: Byte, y: Byte, z: Byte, rest: Bytes)
    ensures Pack([x, y, z] + rest) == [Six0(x), Six1(x, y), Six2(y, z), Six3(z)] + Pack(rest)
  {
    hide Six0, Six1, Six2, Six3;
    assert ([x, y, z] + rest)[3..] == rest;
  }

  /** Strict decoding is a two-sided inverse of encoding. */
  lemma StrictInverse(data: Bytes, s: string)
    ensures DecodeStrict(s) == Some(data) <==> Encode(data) == s
  {
    UnpackOfPack(data);
    SymbolsDigits(Pack(data));
  }

  /** What strict decoding accepts, said without encoding anything. */
  lemma StrictAccepts(s: string)
    ensures DecodeStrict(s).Some? <==> InAlphabet(s) && |s| % 4 != 1 && TrailingBitsZero(Digits(s))
  {
    if InAlphabet(s) && |s| % 4 != 1 {
      PackOfUnpack(Digits(s));
      DigitsSymbols(s);
      SymbolsDigits(Pack(Unpack(Digits(s))));
    }
  }

  lemma EncodeEmpty(data: Bytes)
    ensures Encode(data) == "" <==> data == []
  {
    PackLength(data);
  }

  /** Two bytes whose digits include the last two of the alphabet. */
  lemma EncodedExample()
    ensures Encode([0xfb, 0xff]) == "-_8" && DecodeStrict("-_8") == Some([0xfb, 0xff])
  {
    hide Symbol, Digit, DecodeStrict;
    SymbolTable(60);
    ExampleDigits();
    assert Encode([0xfb, 0xff]) == [Symbol(62), Symbol(63), Symbol(60)];
    StrictInverse([0xfb, 0xff], "-_8");
  }

  lemma ExampleDigits()
    ensures Pack([0xfb, 0xff]) == [62, 63, 60] && Symbol(60) == '8'
  {
  }
}
