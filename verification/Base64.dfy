/**
 Base64 (sections 4 and 5 of RFC 4648), out of place and over its own input. Models common/base64.hpp; the
 shifts and masks on bytes are written as products, quotients and remainders.
 */
module Base64 {
  import opened Common

  datatype Alphabet = Auto | Standard | UrlSafe

  datatype Behavior = Moderate | Loose

  datatype Error = InvalidCharacter

  type Outcome = Result<seq<Byte>, Error>

  // ---- the alphabets ----

  /** The character of a 6-bit value; without a choice the standard alphabet is used. */
  function CharOf(a: Alphabet, v: nat): char
    requires v < 64
  {
    if v < 26 then ('A' as int + v) as char
    else if v < 52 then ('a' as int + v - 26) as char
    else if v < 62 then ('0' as int + v - 52) as char
    else if v == 62 then if a == UrlSafe then '-' else '+'
    else if a == UrlSafe then '_' else '/'
  }

  /** The value of a character, and the alphabet it settles on. */
  function ValueOf(a: Alphabet, c: char): (r: Option<(nat, Alphabet)>)
    ensures r.Some? ==> r.value.0 < 64
  {
    if 'A' <= c <= 'Z' then Some((c as int - 'A' as int, a))
    else if 'a' <= c <= 'z' then Some((c as int - 'a' as int + 26, a))
    else if '0' <= c <= '9' then Some((c as int - '0' as int + 52, a))
    else if a != UrlSafe && c == '+' then Some((62, Standard))
    else if a != UrlSafe && c == '/' then Some((63, Standard))
    else if a != Standard && c == '-' then Some((62, UrlSafe))
    else if a != Standard && c == '_' then Some((63, UrlSafe))
    else None
  }

  // ---- encoding ----

  /** The characters for the three bytes at position i, or for the one or two that are left. */
  function Group(b: seq<Byte>, i: nat, a: Alphabet, padded: bool): (r: string)
    requires i < |b|
  {
    if i + 1 == |b| then [CharOf(a, b[i] / 4), CharOf(a, b[i] % 4 * 16)] + if padded then "==" else ""
    else if i + 2 == |b| then
      [CharOf(a, b[i] / 4), CharOf(a, b[i] % 4 * 16 + b[i + 1] / 16), CharOf(a, b[i + 1] % 16 * 4)]
      + if padded then "=" else ""
    else
      [CharOf(a, b[i] / 4), CharOf(a, b[i] % 4 * 16 + b[i + 1] / 16),
       CharOf(a, b[i + 1] % 16 * 4 + b[i + 2] / 64), CharOf(a, b[i + 2] % 64)]
  }

  function TextFrom(b: seq<Byte>, i: nat, a: Alphabet, padded: bool): string
    decreases |b| - i
  {
    if i >= |b| then "" else Group(b, i, a, padded) + TextFrom(b, i + 3, a, padded)
  }

  function Encode(b: seq<Byte>, a: Alphabet): string {
    TextFrom(b, 0, a, true)
  }

  /** One round of the loop: up to three bytes are read. */
  method EncodeGroup(b: seq<Byte>, i: nat, a: Alphabet) returns (out: string, next: nat)
    requires i < |b|
    ensures out == Group(b, i, a, true) && next == if i + 3 <= |b| then i + 3 else |b|
  {
    hide CharOf;
    next := i;
    var i0 := b[next];
    next := next + 1;
    out := [CharOf(a, i0 / 4)];
    if next == |b| {
      out := out + [CharOf(a, i0 % 4 * 16)];
      out := out + "=" + "=";
      return;
    }
    var i1 := b[next];
    next := next + 1;
    out := out + [CharOf(a, i0 % 4 * 16 + i1 / 16)];
    if next == |b| {
      out := out + [CharOf(a, i1 % 16 * 4)];
      out := out + "=";
      return;
    }
    var i2 := b[next];
    next := next + 1;
    out := out + [CharOf(a, i1 % 16 * 4 + i2 / 64)];
    out := out + [CharOf(a, i2 % 64)];
  }

  // ---- the standard's own tables ----

  const UPPER: string := "ABCDEFGHIJKLM" + "NOPQRSTUVWXYZ"
  const LOWER: string := "abcdefghijklm" + "nopqrstuvwxyz"
  const DIGITS: string := "0123456789"
  const TABLE: string := UPPER + LOWER + DIGITS + "+/"
  const URL_TABLE: string := UPPER + LOWER + DIGITS + "-_"

  /** The characters are those of the tables in sections 4 and 5 of RFC 4648. */
  lemma AlphabetIsTable(a: Alphabet, v: nat)
    requires v < 64
    ensures |TABLE| == |URL_TABLE| == 64
    ensures CharOf(a, v) == if a == UrlSafe then URL_TABLE[v] else TABLE[v]
  {
    if v < 26 {
      LetterTable(v);
      assert TABLE[v] == UPPER[v] == URL_TABLE[v];
    } else if v < 52 {
      LetterTable(v - 26);
      assert TABLE[v] == LOWER[v - 26] == URL_TABLE[v];
    } else if v < 62 {
      assert TABLE[v] == DIGITS[v - 52] == URL_TABLE[v];
    }
  }

  lemma LetterTable(v: nat)
    requires v < 26
    ensures UPPER[v] == ('A' as int + v) as char && LOWER[v] == ('a' as int + v) as char
  {
    if v < 13 {
      FirstLetters(v);
      assert UPPER[v] == "ABCDEFGHIJKLM"[v] && LOWER[v] == "abcdefghijklm"[v];
    } else {
      LastLetters(v - 13);
      assert UPPER[v] == "NOPQRSTUVWXYZ"[v - 13] && LOWER[v] == "nopqrstuvwxyz"[v - 13];
    }
  }

  lemma FirstLetters(v: nat)
    requires v < 13
    ensures "ABCDEFGHIJKLM"[v] == ('A' as int + v) as char && "abcdefghijklm"[v] == ('a' as int + v) as char
  {
  }

  lemma LastLetters(v: nat)
    requires v < 13
    ensures "NOPQRSTUVWXYZ"[v] == ('N' as int + v) as char && "nopqrstuvwxyz"[v] == ('n' as int + v) as char
  {
  }

  /** Three bytes as one number of 24 bits. */
  function Number(x: nat, y: nat, z: nat): (n: nat)
    requires x < 256 && y < 256 && z < 256
    ensures n < 0x100_0000
  {
    x * 0x1_0000 + y * 0x100 + z
  }

  lemma TopDigits(x: nat, y: nat, z: nat)
    requires x < 256 && y < 256 && z < 256
    ensures Number(x, y, z) / 0x4_0000 == x / 4
    ensures Number(x, y, z) / 0x1000 == x * 16 + y / 16 && Number(x, y, z) / 0x1000 % 64 == x % 4 * 16 + y / 16
  {
    assert x == x / 4 * 4 + x % 4 && y == y / 16 * 16 + y % 16;
    DigitOf(x / 4, x % 4 * 16 + y / 16);
  }

  lemma LowDigits(x: nat, y: nat, z: nat)
    requires x < 256 && y < 256 && z < 256
    ensures Number(x, y, z) / 64 % 64 == y % 16 * 4 + z / 64 && Number(x, y, z) % 64 == z % 64
  {
    assert z == z / 64 * 64 + z % 64 && y == y / 16 * 16 + y % 16;
    assert Number(x, y, z) / 64 == x * 1024 + y * 4 + z / 64;
    DigitOf(x * 16 + y / 16, y % 16 * 4 + z / 64);
    DigitOf(x * 1024 + y * 4 + z / 64, z % 64);
  }

  lemma DigitOf(q: nat, r: nat)
    requires r < 64
    ensures (q * 64 + r) % 64 == r
  {
  }

  /** The six-bit digits of the number, from the top, are looked up in the table. */
  lemma GroupIsDigits(b: seq<Byte>, i: nat, a: Alphabet, padded: bool)
    requires i + 3 <= |b|
    ensures
      var n := Number(b[i], b[i + 1], b[i + 2]);
      Group(b, i, a, padded)
      == [CharOf(a, n / 0x4_0000), CharOf(a, n / 0x1000 % 64), CharOf(a, n / 64 % 64), CharOf(a, n % 64)]
  {
    TopDigits(b[i], b[i + 1], b[i + 2]);
    LowDigits(b[i], b[i + 1], b[i + 2]);
    hide CharOf, Number;
  }

  /** One or two bytes are filled up with zero bits, and with padding characters to a group of four. */
  lemma ShortGroup(b: seq<Byte>, i: nat, a: Alphabet)
    requires i < |b| < i + 3
    ensures
      var n := Number(b[i], if i + 1 < |b| then b[i + 1] else 0, 0);
      Group(b, i, a, true)
      == [CharOf(a, n / 0x4_0000), CharOf(a, n / 0x1000 % 64), if i + 1 < |b| then CharOf(a, n / 64 % 64) else '=', '=']
  {
    var y := if i + 1 < |b| then b[i + 1] else 0;
    TopDigits(b[i], y, 0);
    LowDigits(b[i], y, 0);
    hide CharOf, Number;
  }

  method EncodeBytes(b: seq<Byte>, a: Alphabet) returns (out: string)
    ensures out == Encode(b, a)
  {
    hide CharOf, Group, TextFrom;
    out := "";
    var i := 0;
    while i < |b|
      invariant i <= |b| && out + TextFrom(b, i, a, true) == Encode(b, a)
    {
      TextStep(b, i, a, true);
      if i + 3 > |b| {
        TextEnd(b, i + 3, a, true);
        TextEnd(b, |b|, a, true);
      }
      var group, next := EncodeGroup(b, i, a);
      assert (out + group) + TextFrom(b, next, a, true) == out + (group + TextFrom(b, next, a, true));
      out := out + group;
      i := next;
    }
    TextEnd(b, i, a, true);
  }

  lemma TextStep(b: seq<Byte>, i: nat, a: Alphabet, padded: bool)
    requires i < |b|
    ensures TextFrom(b, i, a, padded) == Group(b, i, a, padded) + TextFrom(b, i + 3, a, padded)
  {
  }

  lemma TextEnd(b: seq<Byte>, i: nat, a: Alphabet, padded: bool)
    requires i >= |b|
    ensures TextFrom(b, i, a, padded) == ""
  {
  }

  // ---- decoding ----

  /** How many bits of the last value are still unused: none, six, four or two. */
  predicate BitCount(bits: nat) {
    bits == 0 || bits == 2 || bits == 4 || bits == 6
  }

  /** The byte that the unused bits of the last value make with a new one, if they suffice. */
  function Ready(last: nat, bits: nat, part: nat): (r: seq<Byte>)
    requires last < 64 && part < 64 && BitCount(bits)
    ensures |r| == if bits == 0 then 0 else 1
  {
    if bits == 6 then [last * 4 % 256 + part / 16]
    else if bits == 4 then [last * 16 % 256 + part / 4]
    else if bits == 2 then [last * 64 % 256 + part]
    else []
  }

  function NextBits(bits: nat): (r: nat)
    requires BitCount(bits)
    ensures BitCount(r)
  {
    if bits == 0 then 6 else bits - 2
  }

  /** Bytes decoded before the rest, if the rest decodes. */
  function Before(out: seq<Byte>, r: Outcome): Outcome {
    match r
    case Ok(rest) => Ok(out + rest)
    case Err(e) => Err(e)
  }

  predicate AllPadding(s: string, i: nat) {
    forall k :: i <= k < |s| ==> s[k] == '='
  }

  function DecodeFrom(s: string, i: nat, a: Alphabet, last: nat, bits: nat, behavior: Behavior): Outcome
    requires i <= |s| && last < 64 && BitCount(bits)
    decreases |s| - i
  {
    if i == |s| then Ok([])
    else if s[i] == '=' then if behavior == Loose || AllPadding(s, i) then Ok([]) else Err(InvalidCharacter)
    else
      match ValueOf(a, s[i])
      case None => Err(InvalidCharacter)
      case Some((part, next)) =>
        Before(Ready(last, bits, part), DecodeFrom(s, i + 1, next, part, NextBits(bits), behavior))
  }

  function Decode(s: string, a: Alphabet, behavior: Behavior): Outcome {
    DecodeFrom(s, 0, a, 0, 0, behavior)
  }

  lemma BeforeBefore(x: seq<Byte>, y: seq<Byte>, r: Outcome)
    ensures Before(x + y, r) == Before(x, Before(y, r))
  {
    if r.Ok? {
      assert (x + y) + r.value == x + (y + r.value);
    }
  }

  lemma BeforeNothing(r: Outcome)
    ensures Before([], r) == r
  {
    if r.Ok? {
      assert [] + r.value == r.value;
    }
  }

  method DecodeString(s: string, alphabet: Alphabet, behavior: Behavior) returns (r: Outcome)
    ensures r == Decode(s, alphabet, behavior)
  {
    hide ValueOf, Ready;
    var a := alphabet;
    var out: seq<Byte> := [];
    var i, last, bits := 0, 0, 0;
    BeforeNothing(Decode(s, alphabet, behavior));
    while i < |s| && s[i] != '='
      invariant i <= |s| && last < 64 && BitCount(bits)
      invariant Before(out, DecodeFrom(s, i, a, last, bits, behavior)) == Decode(s, alphabet, behavior)
    {
      var value := ValueOf(a, s[i]);
      if value == None {
        return Err(InvalidCharacter);
      }
      var (part, next) := value.value;
      BeforeBefore(out, Ready(last, bits, part), DecodeFrom(s, i + 1, next, part, NextBits(bits), behavior));
      out := out + Ready(last, bits, part);
      i, a, last, bits := i + 1, next, part, NextBits(bits);
    }
    assert out + [] == out;
    if behavior != Loose {
      var k := i;
      while k < |s|
        invariant i <= k <= |s| && forall m :: i <= m < k ==> s[m] == '='
      {
        if s[k] != '=' {
          return Err(InvalidCharacter);
        }
        k := k + 1;
      }
    }
    r := Ok(out);
  }

  // ---- over the input ----

  /** The bytes as they stand in a buffer of characters. */
  function AsChars(b: seq<Byte>): (r: string)
    ensures |r| == |b| && forall k :: 0 <= k < |b| ==> r[k] == b[k] as char
  {
    seq(|b|, k requires 0 <= k < |b| => b[k] as char)
  }

  lemma AsCharsAppend(x: seq<Byte>, y: seq<Byte>)
    ensures AsChars(x + y) == AsChars(x) + AsChars(y)
  {
  }

  /**
   Decodes a buffer into itself: n cells are the result. Every cell written was read before, so the outcome
   is that of decoding elsewhere, errors included.
   */
  method DecodeInPlace(buf: array<char>, alphabet: Alphabet, behavior: Behavior) returns (r: Result<nat, Error>)
    modifies buf
    ensures r.Ok? <==> Decode(old(buf[..]), alphabet, behavior).Ok?
    ensures r.Ok? ==> r.value <= buf.Length
                      && buf[..r.value] == AsChars(Decode(old(buf[..]), alphabet, behavior).value)
  {
    hide ValueOf, Ready, AsChars;
    ghost var s := buf[..];
    ghost var done: seq<Byte> := [];
    var a := alphabet;
    var i, n, last, bits := 0, 0, 0, 0;
    BeforeNothing(Decode(s, alphabet, behavior));
    AsCharsNothing();
    while i < buf.Length && buf[i] != '='
      invariant n <= i <= buf.Length && last < 64 && BitCount(bits) && 8 * n + bits == 6 * i
      invariant forall k :: i <= k < |s| ==> buf[k] == s[k]
      invariant buf[..n] == AsChars(done)
      invariant Before(done, DecodeFrom(s, i, a, last, bits, behavior)) == Decode(s, alphabet, behavior)
    {
      var value := ValueOf(a, buf[i]);
      if value == None {
        return Err(InvalidCharacter);
      }
      var (part, next) := value.value;
      ghost var ready := Ready(last, bits, part);
      BeforeBefore(done, ready, DecodeFrom(s, i + 1, next, part, NextBits(bits), behavior));
      AsCharsAppend(done, ready);
      ghost var written := buf[..n];
      n := WriteByte(buf, n, Ready(last, bits, part));
      assert buf[..n] == written + AsChars(ready);
      done := done + ready;
      i, a, last, bits := i + 1, next, part, NextBits(bits);
    }
    assert done + [] == done;
    if behavior != Loose {
      var k := i;
      while k < buf.Length
        invariant i <= k <= buf.Length && forall m :: i <= m < k ==> s[m] == '='
      {
        if buf[k] != '=' {
          assert s[k] != '=';
          return Err(InvalidCharacter);
        }
        k := k + 1;
      }
    }
    r := Ok(n);
  }

  lemma AsCharsNothing()
    ensures AsChars([]) == ""
  {
  }

  /** Writes a byte, if there is one, at cell n. */
  method WriteByte(buf: array<char>, n: nat, ready: seq<Byte>) returns (n': nat)
    requires |ready| <= 1 && n + |ready| <= buf.Length
    modifies buf
    ensures n' == n + |ready| && buf[..n'] == old(buf[..n]) + AsChars(ready)
    ensures forall k :: n' <= k < buf.Length ==> buf[k] == old(buf[k])
  {
    n' := n;
    if ready != [] {
      buf[n] := ready[0] as char;
      n' := n + 1;
    }
  }

  // ---- the round trip ----

  /** A decoder that is set to the alphabet of the encoder, or still detects it. */
  predicate Compatible(decoder: Alphabet, encoder: Alphabet) {
    decoder == Auto || (decoder == UrlSafe <==> encoder == UrlSafe)
  }

  lemma ValueOfChar(decoder: Alphabet, encoder: Alphabet, v: nat)
    requires v < 64 && Compatible(decoder, encoder)
    ensures CharOf(encoder, v) != '='
    ensures
      var r := ValueOf(decoder, CharOf(encoder, v));
      r.Some? && r.value.0 == v && Compatible(r.value.1, encoder)
  {
  }

  lemma DecodeChar(s: string, i: nat, a: Alphabet, last: nat, bits: nat, behavior: Behavior, encoder: Alphabet, v: nat)
      returns (next: Alphabet)
    requires i < |s| && last < 64 && BitCount(bits) && v < 64 && Compatible(a, encoder) && s[i] == CharOf(encoder, v)
    ensures Compatible(next, encoder)
    ensures
      DecodeFrom(s, i, a, last, bits, behavior)
      == Before(Ready(last, bits, v), DecodeFrom(s, i + 1, next, v, NextBits(bits), behavior))
  {
    ValueOfChar(a, encoder, v);
    next := ValueOf(a, s[i]).value.1;
  }

  /** Decoding ends at the first padding character if only padding follows. */
  lemma DecodeEnd(s: string, i: nat, a: Alphabet, last: nat, bits: nat, behavior: Behavior)
    requires i <= |s| && last < 64 && BitCount(bits) && AllPadding(s, i)
    ensures DecodeFrom(s, i, a, last, bits, behavior) == Ok([])
  {
  }

  lemma FirstByte(b0: Byte, low: nat)
    requires low < 16
    ensures Ready(b0 / 4, 6, b0 % 4 * 16 + low) == [b0]
  {
  }

  /** A first byte is back after two characters. */
  lemma ReadOne(s: string, i: nat, a: Alphabet, last: nat, behavior: Behavior, encoder: Alphabet, b0: Byte, low: nat)
      returns (next: Alphabet)
    requires i + 2 <= |s| && last < 64 && Compatible(a, encoder) && low < 16
    requires s[i] == CharOf(encoder, b0 / 4) && s[i + 1] == CharOf(encoder, b0 % 4 * 16 + low)
    ensures Compatible(next, encoder)
    ensures
      DecodeFrom(s, i, a, last, 0, behavior)
      == Before([b0], DecodeFrom(s, i + 2, next, b0 % 4 * 16 + low, 4, behavior))
  {
    FirstByte(b0, low);
    assert Ready(last, 0, b0 / 4) == [];
    hide CharOf, DecodeFrom, Ready, Compatible, Before;
    var high, part := b0 / 4, b0 % 4 * 16 + low;
    var a1 := DecodeChar(s, i, a, last, 0, behavior, encoder, high);
    BeforeNothing(DecodeFrom(s, i + 1, a1, high, 6, behavior));
    next := DecodeChar(s, i + 1, a1, high, 6, behavior, encoder, part);
  }

  /** A second byte is back after the third character. */
  lemma ReadTwo(s: string, i: nat, a: Alphabet, high: nat, behavior: Behavior, encoder: Alphabet, b1: Byte, low: nat)
      returns (next: Alphabet)
    requires i + 1 <= |s| && high < 4 && Compatible(a, encoder) && low < 4
    requires s[i] == CharOf(encoder, b1 % 16 * 4 + low)
    ensures Compatible(next, encoder)
    ensures
      DecodeFrom(s, i, a, high * 16 + b1 / 16, 4, behavior)
      == Before([b1], DecodeFrom(s, i + 1, next, b1 % 16 * 4 + low, 2, behavior))
  {
    hide CharOf, DecodeFrom;
    var last, part := high * 16 + b1 / 16, b1 % 16 * 4 + low;
    MiddleByte(high, b1, low);
    next := DecodeChar(s, i, a, last, 4, behavior, encoder, part);
  }

  lemma MiddleByte(high: nat, b1: Byte, low: nat)
    requires high < 4 && low < 4
    ensures Ready(high * 16 + b1 / 16, 4, b1 % 16 * 4 + low) == [b1]
  {
  }

  lemma LastByte(high: nat, b2: Byte)
    requires high < 16
    ensures Ready(high * 4 + b2 / 64, 2, b2 % 64) == [b2]
  {
  }

  /** A third byte is back after the fourth character. */
  lemma ReadThree(s: string, i: nat, a: Alphabet, high: nat, behavior: Behavior, encoder: Alphabet, b2: Byte)
      returns (next: Alphabet)
    requires i + 1 <= |s| && high < 16 && Compatible(a, encoder)
    requires s[i] == CharOf(encoder, b2 % 64)
    ensures Compatible(next, encoder)
    ensures
      DecodeFrom(s, i, a, high * 4 + b2 / 64, 2, behavior)
      == Before([b2], DecodeFrom(s, i + 1, next, b2 % 64, 0, behavior))
  {
    LastByte(high, b2);
    hide CharOf, DecodeFrom, Ready, Compatible, Before;
    var last, part := high * 4 + b2 / 64, b2 % 64;
    next := DecodeChar(s, i, a, last, 2, behavior, encoder, part);
  }

  function From(b: seq<Byte>, i: nat): seq<Byte> {
    if i <= |b| then b[i..] else []
  }

  lemma GroupAt(s: string, p: nat, b: seq<Byte>, i: nat, a: Alphabet, padded: bool)
    requires p <= |s| && i < |b| && s[p..] == TextFrom(b, i, a, padded)
    ensures
      var g := Group(b, i, a, padded);
      && p + |g| <= |s| && (forall k :: 0 <= k < |g| ==> s[p + k] == g[k])
      && s[p + |g|..] == TextFrom(b, i + 3, a, padded)
  {
    hide CharOf, TextFrom, Group;
    TextStep(b, i, a, padded);
    var g := Group(b, i, a, padded);
    assert s[p..][..|g|] == g && s[p..][|g|..] == s[p + |g|..];
    assert forall k :: 0 <= k < |g| ==> s[p + k] == s[p..][k];
  }

  lemma FullGroup(s: string, p: nat, a: Alphabet, last: nat, behavior: Behavior, b: seq<Byte>, i: nat,
                  encoder: Alphabet, padded: bool) returns (next: Alphabet)
    requires p <= |s| && last < 64 && Compatible(a, encoder) && i + 3 <= |b|
      && s[p..] == TextFrom(b, i, encoder, padded)
    ensures Compatible(next, encoder) && p + 4 <= |s|
    ensures
      DecodeFrom(s, p, a, last, 0, behavior)
      == Before([b[i], b[i + 1], b[i + 2]], DecodeFrom(s, p + 4, next, b[i + 2] % 64, 0, behavior))
  {
    hide CharOf, DecodeFrom, TextFrom;
    GroupAt(s, p, b, i, encoder, padded);
    var g := Group(b, i, encoder, padded);
    assert s[p] == g[0] && s[p + 1] == g[1] && s[p + 2] == g[2] && s[p + 3] == g[3];
    hide Before;
    var a1 := ReadOne(s, p, a, last, behavior, encoder, b[i], b[i + 1] / 16);
    var a2 := ReadTwo(s, p + 2, a1, b[i] % 4, behavior, encoder, b[i + 1], b[i + 2] / 64);
    next := ReadThree(s, p + 3, a2, b[i + 1] % 16, behavior, encoder, b[i + 2]);
    var r := DecodeFrom(s, p + 4, next, b[i + 2] % 64, 0, behavior);
    BeforeBefore([b[i + 1]], [b[i + 2]], r);
    BeforeBefore([b[i]], [b[i + 1], b[i + 2]], r);
    assert [b[i + 1]] + [b[i + 2]] == [b[i + 1], b[i + 2]];
    assert [b[i]] + [b[i + 1], b[i + 2]] == [b[i], b[i + 1], b[i + 2]];
  }

  lemma GroupOfOne(s: string, p: nat, a: Alphabet, last: nat, behavior: Behavior, b: seq<Byte>, i: nat,
                   encoder: Alphabet, padded: bool)
    requires p <= |s| && last < 64 && Compatible(a, encoder) && i + 1 == |b|
      && s[p..] == TextFrom(b, i, encoder, padded)
    ensures DecodeFrom(s, p, a, last, 0, behavior) == Ok([b[i]])
  {
    hide CharOf, DecodeFrom, TextFrom;
    GroupAt(s, p, b, i, encoder, padded);
    var g := Group(b, i, encoder, padded);
    assert s[p] == g[0] && s[p + 1] == g[1] && (padded ==> s[p + 2] == g[2] && s[p + 3] == g[3]);
    TextEnd(b, i + 3, encoder, padded);
    var a1 := ReadOne(s, p, a, last, behavior, encoder, b[i], 0);
    assert |s| == p + |g|;
    DecodeEnd(s, p + 2, a1, b[i] % 4 * 16, 4, behavior);
    assert [b[i]] + [] == [b[i]];
  }

  lemma GroupOfTwo(s: string, p: nat, a: Alphabet, last: nat, behavior: Behavior, b: seq<Byte>, i: nat,
                   encoder: Alphabet, padded: bool)
    requires p <= |s| && last < 64 && Compatible(a, encoder) && i + 2 == |b|
      && s[p..] == TextFrom(b, i, encoder, padded)
    ensures DecodeFrom(s, p, a, last, 0, behavior) == Ok([b[i], b[i + 1]])
  {
    hide CharOf, DecodeFrom, TextFrom;
    GroupAt(s, p, b, i, encoder, padded);
    var g := Group(b, i, encoder, padded);
    assert s[p] == g[0] && s[p + 1] == g[1] && s[p + 2] == g[2] && (padded ==> s[p + 3] == g[3]);
    TextEnd(b, i + 3, encoder, padded);
    var a1 := ReadOne(s, p, a, last, behavior, encoder, b[i], b[i + 1] / 16);
    var a2 := ReadTwo(s, p + 2, a1, b[i] % 4, behavior, encoder, b[i + 1], 0);
    assert |s| == p + |g|;
    DecodeEnd(s, p + 3, a2, b[i + 1] % 16 * 4, 2, behavior);
    assert [b[i]] + ([b[i + 1]] + []) == [b[i], b[i + 1]];
  }

  lemma {:induction false} DecodeText(s: string, p: nat, a: Alphabet, last: nat, behavior: Behavior, b: seq<Byte>,
                                      i: nat, encoder: Alphabet, padded: bool)
    requires p <= |s| && last < 64 && Compatible(a, encoder) && s[p..] == TextFrom(b, i, encoder, padded)
    ensures DecodeFrom(s, p, a, last, 0, behavior) == Ok(From(b, i))
    decreases |b| - i
  {
    hide CharOf, DecodeFrom, TextFrom;
    if i >= |b| {
      TextEnd(b, i, encoder, padded);
      DecodeEnd(s, p, a, last, 0, behavior);
    } else if i + 1 == |b| {
      GroupOfOne(s, p, a, last, behavior, b, i, encoder, padded);
      assert b[i..] == [b[i]];
    } else if i + 2 == |b| {
      GroupOfTwo(s, p, a, last, behavior, b, i, encoder, padded);
      assert b[i..] == [b[i], b[i + 1]];
    } else {
      var next := FullGroup(s, p, a, last, behavior, b, i, encoder, padded);
      GroupAt(s, p, b, i, encoder, padded);
      DecodeText(s, p + 4, next, b[i + 2] % 64, behavior, b, i + 3, encoder, padded);
      assert b[i..] == [b[i], b[i + 1], b[i + 2]] + b[i + 3..];
    }
  }

  /**
   Decoding undoes encoding for every byte string: with the alphabet it was encoded in or with detection,
   whether or not the padding is there, and however strict the decoder is.
   */
  lemma RoundTrip(b: seq<Byte>, encoder: Alphabet, decoder: Alphabet, behavior: Behavior, padded: bool)
    requires Compatible(decoder, encoder)
    ensures Decode(TextFrom(b, 0, encoder, padded), decoder, behavior) == Ok(b)
  {
    hide DecodeFrom, TextFrom;
    var s := TextFrom(b, 0, encoder, padded);
    assert s[0..] == s && b[0..] == b;
    DecodeText(s, 0, decoder, 0, behavior, b, 0, encoder, padded);
  }

  // ---- sizes ----

  function RequiredEncodeSize(size: nat): nat {
    (size / 3 + if size % 3 != 0 then 1 else 0) * 4
  }

  function MaxDecodeSize(size: nat): nat {
    (size / 4 + if size % 4 != 0 then 1 else 0) * 3
  }

  lemma {:induction false} EncodedSize(b: seq<Byte>, i: nat, a: Alphabet)
    requires i <= |b| + 2
    ensures |TextFrom(b, i, a, true)| == RequiredEncodeSize(if i <= |b| then |b| - i else 0)
    decreases |b| - i
  {
    hide CharOf, Group;
    if i < |b| {
      EncodedSize(b, i + 3, a);
      GroupSize(b, i, a);
      SizeStep(|b| - i);
    }
  }

  lemma GroupSize(b: seq<Byte>, i: nat, a: Alphabet)
    requires i < |b|
    ensures |Group(b, i, a, true)| == 4
  {
    hide CharOf;
  }

  lemma SizeStep(n: nat)
    requires n > 0
    ensures RequiredEncodeSize(n) == 4 + RequiredEncodeSize(if n >= 3 then n - 3 else 0)
  {
  }

  /** The encoded length is exactly the announced one. */
  lemma EncodeSize(b: seq<Byte>, a: Alphabet)
    ensures |Encode(b, a)| == RequiredEncodeSize(|b|)
  {
    EncodedSize(b, 0, a);
  }

  /** The characters before the padding. */
  function DataEnd(s: string, i: nat): (r: nat)
    requires i <= |s|
    ensures i <= r <= |s| && (r < |s| ==> s[r] == '=')
    ensures forall k :: i <= k < r ==> s[k] != '='
    decreases |s| - i
  {
    if i == |s| || s[i] == '=' then i else DataEnd(s, i + 1)
  }

  lemma {:induction false} DecodedSize(s: string, i: nat, a: Alphabet, last: nat, bits: nat, behavior: Behavior)
    requires i <= |s| && last < 64 && BitCount(bits)
    ensures
      var r := DecodeFrom(s, i, a, last, bits, behavior);
      r.Ok? ==> |r.value| == (bits + 6 * (DataEnd(s, i) - i)) / 8
    decreases |s| - i
  {
    hide ValueOf, Ready;
    if i < |s| && s[i] != '=' && ValueOf(a, s[i]).Some? {
      var (part, next) := ValueOf(a, s[i]).value;
      DecodedSize(s, i + 1, next, part, NextBits(bits), behavior);
    }
  }

  /** Each byte takes eight of the bits read, the rest is dropped; the announced size is never exceeded. */
  lemma DecodeSize(s: string, a: Alphabet, behavior: Behavior)
    requires Decode(s, a, behavior).Ok?
    ensures |Decode(s, a, behavior).value| == 6 * DataEnd(s, 0) / 8
    ensures |Decode(s, a, behavior).value| <= MaxDecodeSize(|s|)
  {
    DecodedSize(s, 0, a, 0, 0, behavior);
  }

  // ---- what is accepted ----

  /** A character of an alphabet; under detection, of either. */
  predicate InAlphabet(a: Alphabet, c: char) {
    ValueOf(a, c).Some?
  }

  predicate AllIn(s: string, i: nat, j: nat, a: Alphabet)
    requires j <= |s|
  {
    forall k :: i <= k < j ==> InAlphabet(a, s[k])
  }

  /** After a character, detection accepts what some one alphabet that has the character accepts. */
  lemma Detects(a: Alphabet, c: char)
    requires InAlphabet(a, c)
    ensures
      var next := ValueOf(a, c).value.1;
      && (a != Auto ==> next == a)
      && (a == Auto ==> if next == Auto then InAlphabet(Standard, c) && InAlphabet(UrlSafe, c)
                        else InAlphabet(next, c) && !InAlphabet(if next == Standard then UrlSafe else Standard, c))
  {
  }

  lemma EitherAlphabet(c: char)
    ensures InAlphabet(Auto, c) <==> InAlphabet(Standard, c) || InAlphabet(UrlSafe, c)
  {
  }

  /** One alphabet has all the characters. */
  predicate OneAlphabet(s: string, i: nat, j: nat, a: Alphabet)
    requires j <= |s|
  {
    if a == Auto then AllIn(s, i, j, Standard) || AllIn(s, i, j, UrlSafe) else AllIn(s, i, j, a)
  }

  lemma AllInStep(s: string, i: nat, j: nat, a: Alphabet)
    requires i < j <= |s|
    ensures AllIn(s, i, j, a) <==> InAlphabet(a, s[i]) && AllIn(s, i + 1, j, a)
  {
    hide InAlphabet;
  }

  lemma OneAlphabetStep(s: string, i: nat, j: nat, a: Alphabet)
    requires i < j <= |s|
    ensures
      OneAlphabet(s, i, j, a) <==> InAlphabet(a, s[i]) && OneAlphabet(s, i + 1, j, ValueOf(a, s[i]).value.1)
  {
    AllInStep(s, i, j, a);
    AllInStep(s, i, j, Standard);
    AllInStep(s, i, j, UrlSafe);
    EitherAlphabet(s[i]);
    if InAlphabet(a, s[i]) {
      Detects(a, s[i]);
    }
    assert InAlphabet(a, s[i]) <==> ValueOf(a, s[i]).Some?;
    hide InAlphabet, AllIn, ValueOf;
  }

  lemma {:induction false} DecodesFrom(s: string, i: nat, a: Alphabet, last: nat, bits: nat, behavior: Behavior)
    requires i <= |s| && last < 64 && BitCount(bits)
    ensures
      DecodeFrom(s, i, a, last, bits, behavior).Ok?
      <==> OneAlphabet(s, i, DataEnd(s, i), a) && (behavior == Loose || AllPadding(s, DataEnd(s, i)))
    decreases |s| - i
  {
    if i < |s| && s[i] != '=' {
      OneAlphabetStep(s, i, DataEnd(s, i), a);
      if InAlphabet(a, s[i]) {
        var (part, next) := ValueOf(a, s[i]).value;
        DecodesFrom(s, i + 1, next, part, NextBits(bits), behavior);
      }
      hide OneAlphabet, ValueOf, Ready;
    }
  }

  /**
   A text decodes exactly when the characters before the padding belong to one alphabet and, unless the
   decoder is loose, nothing but padding follows.
   */
  lemma Decodes(s: string, a: Alphabet, behavior: Behavior)
    ensures
      Decode(s, a, behavior).Ok?
      <==> OneAlphabet(s, 0, DataEnd(s, 0), a) && (behavior == Loose || AllPadding(s, DataEnd(s, 0)))
  {
    DecodesFrom(s, 0, a, 0, 0, behavior);
  }
}
