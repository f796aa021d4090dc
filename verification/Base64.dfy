/**
 imageEncoder of helpers/UtilsString.h against section 4 of RFC 4648: a loop with three
 states that carries left-over bits, and the encoding by groups of three bytes.
 Bytes are numbers below 256; BitForms justifies the arithmetic for the masks and shifts.
 */
module Base64 {

  import opened Wrappers

  type Byte = b: int | 0 <= b < 256
  type Sextet = v: int | 0 <= v < 64

  /** The masks and shifts of the source, on eight-bit words, as division and remainder. */
  lemma BitForms(a: bv8, b: bv8)
    ensures (b & 0xFC) >> 2 == b / 4
    ensures (b & 0x03) << 4 == (b % 4) * 16
    ensures ((b & 0xF0) >> 4) | ((a & 0x03) << 4) == b / 16 + (a % 4) * 16
    ensures (b & 0x0F) << 2 == (b % 16) * 4
    ensures ((b & 0xC0) >> 6) | ((a & 0x0F) << 2) == b / 64 + (a % 16) * 4
    ensures b & 0x3F == b % 64
  {
  }

  // base64_chars, which is table 1 of the RFC.
  function Letter(v: Sextet): char {
    if v < 26 then 'A' + v as char
    else if v < 52 then 'a' + (v - 26) as char
    else if v < 62 then '0' + (v - 52) as char
    else if v == 62 then '+' else '/'
  }

  function IndexOf(c: char): Option<Sextet> {
    if 'A' <= c <= 'Z' then Some(c as int - 'A' as int)
    else if 'a' <= c <= 'z' then Some(c as int - 'a' as int + 26)
    else if '0' <= c <= '9' then Some(c as int - '0' as int + 52)
    else if c == '+' then Some(62) else if c == '/' then Some(63) else None
  }

  lemma LetterIndex(v: Sextet)
    ensures IndexOf(Letter(v)) == Some(v) && Letter(v) != '='
  {
  }

  function Letters(s: seq<Sextet>): string {
    seq(|s|, i requires 0 <= i < |s| => Letter(s[i]))
  }

  // Three bytes as four groups of six bits, most significant first.
  function Group(a: Byte, b: Byte, c: Byte): (s: seq<Sextet>)
    ensures |s| == 4
  {
    [a / 4, (a % 4) * 16 + b / 16, (b % 16) * 4 + c / 64, c % 64]
  }

  // The six-bit groups of a byte string; what is missing at the end is zero bits.
  function Sextets(data: seq<Byte>): seq<Sextet> {
    if |data| == 0 then []
    else if |data| == 1 then Group(data[0], 0, 0)[..2]
    else if |data| == 2 then Group(data[0], data[1], 0)[..3]
    else Group(data[0], data[1], data[2]) + Sextets(data[3..])
  }

  function Padding(n: nat): string {
    if n % 3 == 1 then "==" else if n % 3 == 2 then "=" else ""
  }

  function Encode(data: seq<Byte>, padding: bool): string {
    Letters(Sextets(data)) + if padding then Padding(|data|) else ""
  }

  // ---------------------------------------------------------------------------------
  // The letters
  // ---------------------------------------------------------------------------------

  // One letter after the other, but for the three places where table 1 of the RFC starts anew.
  predicate InSuccession(v: Sextet) {
    v in {25, 51, 61, 62, 63} || Letter(v + 1) == Letter(v) + 1 as char
  }

  /** The letters are those of table 1 of the RFC: A to Z, a to z, 0 to 9, plus and slash. */
  lemma LettersOfTheTable(v: Sextet)
    ensures Letter(0) == 'A' && Letter(25) == 'Z' && Letter(26) == 'a' && Letter(51) == 'z'
    ensures Letter(52) == '0' && Letter(61) == '9' && Letter(62) == '+' && Letter(63) == '/'
    ensures InSuccession(v)
  {
  }

  lemma UpToThree(a: Byte, b: Byte, c: Byte)
    ensures Sextets([a]) == [a / 4, (a % 4) * 16]
    ensures Sextets([a, b]) == [a / 4, (a % 4) * 16 + b / 16, (b % 16) * 4]
    ensures Sextets([a, b, c]) == [a / 4, (a % 4) * 16 + b / 16, (b % 16) * 4 + c / 64, c % 64]
  {
    assert [a, b, c][3..] == [] && Sextets([]) == [];
    assert Sextets([a, b, c]) == Group(a, b, c) + Sextets([a, b, c][3..]);
  }

  lemma FourLetters(p: Sextet, q: Sextet, r: Sextet, v: Sextet)
    ensures Letters([p, q]) == [Letter(p), Letter(q)] && Letters([p, q, r]) == [Letter(p), Letter(q), Letter(r)]
    ensures Letters([p, q, r, v]) == [Letter(p), Letter(q), Letter(r), Letter(v)]
  {
  }

  /** The first test vectors of section 10 of RFC 4648: "f", "fo" and "foo". */
  lemma TestVectors()
    ensures Encode([102], true) == "Zg==" && Encode([102, 111], true) == "Zm8="
    ensures Encode([102, 111, 111], true) == "Zm9v"
  {
    UpToThree(102, 111, 111);
    FourLetters(25, 32, 0, 0);
    FourLetters(25, 38, 60, 0);
    FourLetters(25, 38, 61, 47);
  }

  // ---------------------------------------------------------------------------------
  // Decoding
  // ---------------------------------------------------------------------------------

  function Strip(text: string): string {
    if text != "" && text[|text| - 1] == '=' then Strip(text[..|text| - 1]) else text
  }

  function Values(text: string): Option<seq<Sextet>> {
    if text == "" then Some([])
    else
      var v := IndexOf(text[0]);
      var rest := Values(text[1..]);
      if v == None || rest == None then None else Some([v.value] + rest.value)
  }

  // The 24 bits of four groups, as three bytes.
  function Bytes(p: Sextet, q: Sextet, r: Sextet, s: Sextet): (data: seq<Byte>)
    ensures |data| == 3
  {
    [p * 4 + q / 16, (q % 16) * 16 + r / 4, (r % 4) * 64 + s]
  }

  function Join(s: seq<Sextet>): Option<seq<Byte>> {
    if |s| == 0 then Some([])
    else if |s| == 1 then None
    else if |s| == 2 then Some(Bytes(s[0], s[1], 0, 0)[..1])
    else if |s| == 3 then Some(Bytes(s[0], s[1], s[2], 0)[..2])
    else
      var rest := Join(s[4..]);
      if rest == None then None else Some(Bytes(s[0], s[1], s[2], s[3]) + rest.value)
  }

  function Decode(text: string): Option<seq<Byte>> {
    var values := Values(Strip(text));
    if values == None then None else Join(values.value)
  }

  lemma GroupBytes(a: Byte, b: Byte, c: Byte)
    ensures var g := Group(a, b, c); Bytes(g[0], g[1], g[2], g[3]) == [a, b, c]
  {
  }

  lemma {:induction false} JoinSextets(data: seq<Byte>)
    ensures Join(Sextets(data)) == Some(data)
    decreases |data|
  {
    if |data| >= 3 {
      JoinSextets(data[3..]);
      GroupBytes(data[0], data[1], data[2]);
      assert Sextets(data)[4..] == Sextets(data[3..]);
      assert data == [data[0], data[1], data[2]] + data[3..];
    } else if |data| == 2 {
      GroupBytes(data[0], data[1], 0);
      assert data == [data[0], data[1], 0][..2];
    } else if |data| == 1 {
      GroupBytes(data[0], 0, 0);
      assert data == [data[0], 0, 0][..1];
    }
  }

  lemma {:induction false} ValuesOfLetters(s: seq<Sextet>)
    ensures Values(Letters(s)) == Some(s)
  {
    if s != [] {
      ValuesOfLetters(s[1..]);
      assert Letters(s)[1..] == Letters(s[1..]) && Letters(s)[0] == Letter(s[0]);
      LetterIndex(s[0]);
      assert s == [s[0]] + s[1..];
    }
  }

  lemma StripPadding(s: seq<Sextet>, n: nat)
    ensures Strip(Letters(s) + Padding(n)) == Letters(s) == Strip(Letters(s))
  {
    var text := Letters(s);
    if s != [] {
      LetterIndex(s[|s| - 1]);
    }
    assert Strip(text) == text;
    assert (text + "=")[..|text|] == text && (text + "==")[..|text| + 1] == text + "=" && text + "" == text;
  }

  /** Decoding gives every byte string back, padded or not. */
  lemma DecodeEncode(data: seq<Byte>, padding: bool)
    ensures Decode(Encode(data, padding)) == Some(data)
  {
    StripPadding(Sextets(data), |data|);
    assert Letters(Sextets(data)) + "" == Letters(Sextets(data));
    ValuesOfLetters(Sextets(data));
    JoinSextets(data);
  }

  lemma {:induction false} SextetsLength(data: seq<Byte>)
    ensures |Sextets(data)| == (4 * |data| + 2) / 3
    decreases |data|
  {
    if |data| >= 3 {
      SextetsLength(data[3..]);
    }
  }

  lemma Thirds(q: nat, r: nat)
    requires r < 3
    ensures var n := 3 * q + r; 4 * ((n + 2) / 3) == (4 * n + 2) / 3 + if r == 0 then 0 else 3 - r
  {
    if r == 0 {
      assert 3 * q + 2 == q * 3 + 2 && (3 * q + 2) / 3 == q;
      assert (4 * (3 * q) + 2) / 3 == 4 * q;
    } else if r == 1 {
      assert (3 * q + 3) / 3 == q + 1 && (4 * (3 * q + 1) + 2) / 3 == 4 * q + 2;
    } else {
      assert (3 * q + 4) / 3 == q + 1 && (4 * (3 * q + 2) + 2) / 3 == 4 * q + 3;
    }
  }

  /** Four letters for every three bytes begun when padded, ceil(4n/3) when not. */
  lemma EncodedLength(data: seq<Byte>)
    ensures |Encode(data, true)| == 4 * ((|data| + 2) / 3)
    ensures |Encode(data, false)| == (4 * |data| + 2) / 3
  {
    var q, r := |data| / 3, |data| % 3;
    SextetsLength(data);
    assert |data| == 3 * q + r;
    Thirds(q, r);
    assert |Letters(Sextets(data))| == (4 * |data| + 2) / 3;
    assert |Padding(|data|)| == if r == 0 then 0 else 3 - r;
  }

  // ---------------------------------------------------------------------------------
  // The loop
  // ---------------------------------------------------------------------------------

  // The bits that wait for the next byte when `group` is all there is of a group.
  function LeftOver(group: seq<Byte>): (v: Sextet)
    requires |group| <= 2
    ensures |group| == 1 ==> v <= 48
    ensures |group| == 2 ==> v <= 60
  {
    if |group| == 0 then 0 else if |group| == 1 then (group[0] % 4) * 16 else (group[1] % 16) * 4
  }

  // The sextets that one more byte adds.
  function Added(group: seq<Byte>, b: Byte): seq<Sextet>
    requires |group| <= 2
  {
    var rest := LeftOver(group);
    if |group| == 0 then [b / 4]
    else if |group| == 1 then [b / 16 + rest]
    else [b / 64 + rest, b % 64]
  }

  // The sextets still to come after `group`, when `rest` follows.
  function ToCome(group: seq<Byte>, rest: seq<Byte>): seq<Sextet>
    requires |group| <= 2
    decreases |rest|
  {
    if rest == [] then if group == [] then [] else [LeftOver(group)]
    else Added(group, rest[0]) + ToCome(Next(group, rest[0]), rest[1..])
  }

  lemma TwoBytes(a: Byte, b: Byte)
    ensures ToCome([], [a, b]) == Sextets([a, b])
  {
    assert [a, b][1..] == [b] && [b][1..] == [] && [] + [a] == [a] && [a] + [b] == [a, b];
    assert ToCome([a, b], []) == [LeftOver([a, b])];
    assert ToCome([a], [b]) == Added([a], b) + [LeftOver([a, b])] == [b / 16 + (a % 4) * 16, (b % 16) * 4];
    assert ToCome([], [a, b]) == Added([], a) + ToCome([a], [b]) == [a / 4, b / 16 + (a % 4) * 16, (b % 16) * 4];
    assert Group(a, b, 0)[..3] == [a / 4, (a % 4) * 16 + b / 16, (b % 16) * 4];
  }

  lemma ComeStep(group: seq<Byte>, b: Byte, rest: seq<Byte>)
    requires |group| <= 2
    ensures ToCome(group, [b] + rest) == Added(group, b) + ToCome(Next(group, b), rest)
  {
    assert ([b] + rest)[1..] == rest;
  }

  lemma Regroup(a: Byte, b: Byte, c: Byte, rest: seq<Sextet>)
    ensures Added([], a) + (Added([a], b) + (Added([a, b], c) + rest)) == Group(a, b, c) + rest
  {
    var x, y, z := Added([], a), Added([a], b), Added([a, b], c);
    assert x + (y + z) == Group(a, b, c);
    assert x + (y + (z + rest)) == (x + (y + z)) + rest;
  }

  lemma ThreeBytes(a: Byte, b: Byte, c: Byte, rest: seq<Byte>)
    ensures ToCome([], [a] + ([b] + ([c] + rest))) == Group(a, b, c) + ToCome([], rest)
  {
    ComeStep([], a, [b] + ([c] + rest));
    ComeStep([a], b, [c] + rest);
    ComeStep([a, b], c, rest);
    assert Next([], a) == [a] && Next([a], b) == [a, b] && Next([a, b], c) == [];
    Regroup(a, b, c, ToCome([], rest));
  }

  /** Byte by byte or group by group: the same sextets. */
  lemma {:induction false} ByteByByte(data: seq<Byte>)
    ensures ToCome([], data) == Sextets(data)
    decreases |data|
  {
    if |data| >= 3 {
      ByteByByte(data[3..]);
      ThreeBytes(data[0], data[1], data[2], data[3..]);
      assert data == [data[0]] + ([data[1]] + ([data[2]] + data[3..]));
    } else if |data| == 2 {
      TwoBytes(data[0], data[1]);
      assert data == [data[0], data[1]];
    } else if |data| == 1 {
      assert data[1..] == [] && ToCome([data[0]], []) == [LeftOver([data[0]])];
    }
  }

  function Next(group: seq<Byte>, b: Byte): (r: seq<Byte>)
    requires |group| <= 2
    ensures |r| <= 2
  {
    if |group| == 2 then [] else group + [b]
  }

  lemma LettersAppend(a: seq<Sextet>, b: seq<Sextet>)
    ensures Letters(a + b) == Letters(a) + Letters(b)
  {
  }

  // One byte of the input, as far as the output is concerned.
  lemma OneByte(out: string, group: seq<Byte>, rest: seq<Byte>)
    requires |group| <= 2 && rest != []
    ensures (out + Letters(Added(group, rest[0]))) + Letters(ToCome(Next(group, rest[0]), rest[1..]))
         == out + Letters(ToCome(group, rest))
  {
    var added, more := Added(group, rest[0]), ToCome(Next(group, rest[0]), rest[1..]);
    assert ToCome(group, rest) == added + more;
    LettersAppend(added, more);
    assert (out + Letters(added)) + Letters(more) == out + (Letters(added) + Letters(more));
  }

  lemma LettersOf(v: Sextet, w: Sextet)
    ensures Letters([]) == "" && Letters([v]) == [Letter(v)] && Letters([v, w]) == [Letter(v)] + [Letter(w)]
  {
  }

  // What one turn of the loop appends.
  function Appended(group: seq<Byte>, b: Byte, lastStuff: Sextet): (text: string)
    requires |group| <= 2 && (group != [] ==> lastStuff == LeftOver(group))
    ensures text == Letters(Added(group, b))
  {
    LettersOf(if |group| == 0 then b / 4 else if |group| == 1 then b / 16 + lastStuff else b / 64 + lastStuff, b % 64);
    if |group| == 0 then [Letter(b / 4)]
    else if |group| == 1 then [Letter(b / 16 + lastStuff)]
    else [Letter(b / 64 + lastStuff)] + [Letter(b % 64)]
  }

  ghost predicate LoopKeeps(data: seq<Byte>, index: nat, group: seq<Byte>, result: string, out: string) {
    && index <= |data| && |group| <= 2
    && out + Letters(ToCome(group, data[index..])) == result + Letters(Sextets(data))
  }

  lemma OneTurn(data: seq<Byte>, index: nat, group: seq<Byte>, lastStuff: Sextet, result: string, out: string)
    requires LoopKeeps(data, index, group, result, out) && index < |data|
    requires group != [] ==> lastStuff == LeftOver(group)
    ensures LoopKeeps(data, index + 1, Next(group, data[index]), result, out + Appended(group, data[index], lastStuff))
  {
    OneByte(out, group, data[index..]);
    assert data[index..][1..] == data[index + 1..];
  }

  lemma LastTurn(data: seq<Byte>, group: seq<Byte>, result: string, out: string, padding: bool)
    requires LoopKeeps(data, |data|, group, result, out) && |group| == |data| % 3
    ensures group == [] ==> out == result + Encode(data, padding)
    ensures group != [] ==>
      (out + [Letter(LeftOver(group))]) + (if padding then Padding(|data|) else "") == result + Encode(data, padding)
  {
    assert data[|data|..] == [];
    LettersOf(LeftOver(group), 0);
    var pad := if padding then Padding(|data|) else "";
    assert (result + Letters(Sextets(data))) + pad == result + (Letters(Sextets(data)) + pad);
    assert group == [] ==> out + "" == out && result + Letters(Sextets(data)) + "" == result + Letters(Sextets(data));
  }

  // One turn of the loop: what it appends, and what it carries over.
  method Take(b: Byte, state: nat, lastStuff: Sextet, out: string, ghost group: seq<Byte>)
    returns (state': nat, lastStuff': Sextet, out': string)
    requires state == |group| <= 2 && (group != [] ==> lastStuff == LeftOver(group))
    ensures out' == out + Appended(group, b, lastStuff)
    ensures state' == |Next(group, b)| && (state' != 0 ==> lastStuff' == LeftOver(Next(group, b)))
  {
    state', lastStuff', out' := 0, lastStuff, out;
    if state == 0 {
      out' := out' + [Letter(b / 4)];
      lastStuff' := (b % 4) * 16;
      state' := 1;
    } else if state == 1 {
      out' := out' + [Letter(b / 16 + lastStuff)];
      lastStuff' := (b % 16) * 4;
      state' := 2;
    } else {
      out' := out' + [Letter(b / 64 + lastStuff)];
      out' := out' + [Letter(b % 64)];
      assert out' == out + ([Letter(b / 64 + lastStuff)] + [Letter(b % 64)]);
    }
  }

  /** The loop appends exactly the encoding of the RFC to the string it is given. */
  method ImageEncoder(data: seq<Byte>, padding: bool, result: string) returns (out: string)
    ensures out == result + Encode(data, padding)
  {
    out := result;
    var state := 0;
    var index := 0;
    var lastStuff: Sextet := 0;
    ghost var group: seq<Byte> := [];
    ghost var groups: nat := 0;
    ByteByByte(data);
    assert data[0..] == data;
    while index < |data|
      invariant 0 <= index <= |data| && state == |group| <= 2 && index == 3 * groups + state
      invariant state != 0 ==> lastStuff == LeftOver(group)
      invariant LoopKeeps(data, index, group, result, out)
    {
      var b := data[index];
      OneTurn(data, index, group, lastStuff, result, out);
      state, lastStuff, out := Take(b, state, lastStuff, out, group);
      if |group| == 2 {
        groups := groups + 1;
      }
      group := Next(group, b);
      index := index + 1;
    }
    LastTurn(data, group, result, out, padding);
    if state != 0 {
      out := out + [Letter(lastStuff)];
      if padding {
        if state == 1 {
          out := out + "==";
        } else {
          out := out + "=";
        }
      }
    }
  }
}
