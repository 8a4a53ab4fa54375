/**
 The base32 codec of TOTP secrets (akfa-docs-platform/lib/totp.ts), after section 6 of
 RFC 4648, and the truncation of a digest to a six-digit code, after section 5.3 of RFC 4226.
 */
module Base32 {
  import opened Wrappers
  import Decimal

  type Byte = b: int | 0 <= b < 256
  type Bits = seq<bool>

  const ALPHABET := "ABCDEFGHIJKLMNOPQRSTUVWXYZ234567"

  // ---------- numbers and bits ----------

  function Pow2(w: nat): nat {
    if w == 0 then 1 else 2 * Pow2(w - 1)
  }

  /** `n.toString(2).padStart(w, '0')`. */
  function BitsOf(n: nat, w: nat): (r: Bits)
    ensures |r| == w
  {
    if w == 0 then [] else BitsOf(n / 2, w - 1) + [n % 2 == 1]
  }

  /** `parseInt(bits, 2)`. */
  function ValueOf(bits: Bits): (n: nat)
    ensures n < Pow2(|bits|)
  {
    if bits == [] then 0 else 2 * ValueOf(bits[..|bits| - 1]) + (if bits[|bits| - 1] then 1 else 0)
  }

  lemma {:induction false} ValueOfBits(n: nat, w: nat)
    requires n < Pow2(w)
    ensures ValueOf(BitsOf(n, w)) == n
  {
    if w > 0 {
      ValueOfBits(n / 2, w - 1);
      assert BitsOf(n, w)[..w - 1] == BitsOf(n / 2, w - 1);
    }
  }

  lemma {:induction false} BitsOfValue(bits: Bits)
    ensures BitsOf(ValueOf(bits), |bits|) == bits
  {
    if bits != [] {
      BitsOfValue(bits[..|bits| - 1]);
    }
  }

  // ---------- encoding ----------

  function ByteBits(bytes: seq<Byte>): (r: Bits)
    ensures |r| == 8 * |bytes|
  {
    if bytes == [] then [] else ByteBits(bytes[..|bytes| - 1]) + BitsOf(bytes[|bytes| - 1], 8)
  }

  function Zeros(n: nat): Bits {
    seq(n, i => false)
  }

  /** The bits with zeros up to a whole number of five-bit groups. */
  function Padded(bits: Bits): (r: Bits)
    ensures |r| % 5 == 0 && |bits| <= |r| < |bits| + 5
  {
    bits + Zeros((5 - |bits| % 5) % 5)
  }

  function Letter(group: Bits): char
    requires |group| == 5
  {
    assert Pow2(5) == 32;
    ALPHABET[ValueOf(group)]
  }

  function Letters(bits: Bits): (s: string)
    requires |bits| % 5 == 0
    ensures |s| == |bits| / 5
    ensures forall i :: 0 <= i < |s| ==> s[i] == Letter(bits[5 * i..5 * i + 5])
  {
    seq(|bits| / 5, i requires 0 <= i < |bits| / 5 => Letter(bits[5 * i..5 * i + 5]))
  }

  function Encoded(bytes: seq<Byte>): string {
    Letters(Padded(ByteBits(bytes)))
  }

  // ---------- decoding ----------

  /**
   `toUpperCase` of one character, as far as the alphabet can tell: the letters that become letters
   of the alphabet alone, the ligatures of f, s and t among them.  Whatever else changes becomes
   text with a character outside the alphabet that is neither white space nor `=`, and is kept.
   */
  function UpperChar(c: char): string {
    if 'a' <= c <= 'z' then [c - 'a' + 'A']
    else
      match c as int
      case 0x00DF => "SS"
      case 0x0131 => "I"
      case 0x017F => "S"
      case 0xFB00 => "FF"
      case 0xFB01 => "FI"
      case 0xFB02 => "FL"
      case 0xFB03 => "FFI"
      case 0xFB04 => "FFL"
      case 0xFB05 => "ST"
      case 0xFB06 => "ST"
      case _ => [c]
  }

  function Upper(s: string): string {
    if s == "" then "" else Upper(s[..|s| - 1]) + UpperChar(s[|s| - 1])
  }

  /** Capitals, digits, white space and `=` stay as they are. */
  predicate Unchanged(s: string) {
    forall i :: 0 <= i < |s| ==> UpperChar(s[i]) == [s[i]]
  }

  lemma UpperAppend(s: string, c: char)
    ensures Upper(s + [c]) == Upper(s) + UpperChar(c)
  {
    assert (s + [c])[..|s|] == s;
  }

  lemma Associate(a: string, b: string, c: string)
    ensures a + b + c == a + (b + c)
  {
  }

  lemma {:induction false} UpperKeeps(a: string, b: string)
    requires Unchanged(b)
    ensures Upper(a + b) == Upper(a) + b
  {
    if b == "" {
      assert a + b == a;
    } else {
      var init, c := b[..|b| - 1], b[|b| - 1];
      assert b == init + [c];
      UpperKeeps(a, init);
      Associate(a, init, [c]);
      UpperAppend(a + init, c);
      Associate(Upper(a), init, [c]);
    }
  }

  function WithoutTrailingEquals(s: string): string {
    if s != "" && s[|s| - 1] == '=' then WithoutTrailingEquals(s[..|s| - 1]) else s
  }

  /** The characters `\s` matches. */
  predicate IsSpace(c: char) {
    var n := c as int;
    || 9 <= n <= 13 || n == 0x20 || n == 0xA0 || n == 0x1680 || 0x2000 <= n <= 0x200A
    || n == 0x2028 || n == 0x2029 || n == 0x202F || n == 0x205F || n == 0x3000 || n == 0xFEFF
  }

  function WithoutSpace(s: string): string {
    if s == "" then "" else WithoutSpace(s[..|s| - 1]) + (if IsSpace(s[|s| - 1]) then "" else [s[|s| - 1]])
  }

  /** The replacements in the order of the source. */
  function Clean(input: string): string {
    WithoutSpace(WithoutTrailingEquals(Upper(input)))
  }

  /** `alphabet.indexOf(c)`. */
  function IndexOf(c: char): (k: int)
    ensures -1 <= k < 32 && (k >= 0 ==> ALPHABET[k] == c)
  {
    if 'A' <= c <= 'Z' then (c - 'A') as int
    else if '2' <= c <= '7' then 26 + (c - '2') as int
    else -1
  }

  lemma IndexOfAbsent(c: char)
    ensures IndexOf(c) < 0 <==> c !in ALPHABET
  {
  }

  predicate InAlphabet(s: string) {
    forall i :: 0 <= i < |s| ==> IndexOf(s[i]) >= 0
  }

  function LetterBits(s: string): (r: Bits)
    requires InAlphabet(s)
    ensures |r| == 5 * |s|
  {
    if s == "" then [] else LetterBits(s[..|s| - 1]) + BitsOf(IndexOf(s[|s| - 1]), 5)
  }

  /** The whole bytes of the bits; a shorter rest is dropped. */
  function WholeBytes(bits: Bits): (r: seq<Byte>)
    ensures |r| == |bits| / 8
  {
    seq(|bits| / 8, i requires 0 <= i < |bits| / 8 => ByteOf(bits[8 * i..8 * i + 8]))
  }

  function ByteOf(group: Bits): Byte
    requires |group| == 8
  {
    assert Pow2(8) == 256;
    ValueOf(group)
  }

  datatype DecodeError = InvalidSecret

  function Decoded(input: string): Result<seq<Byte>, DecodeError> {
    var clean := Clean(input);
    if InAlphabet(clean) then Success(WholeBytes(LetterBits(clean))) else Failure(InvalidSecret)
  }

  // ---------- letters and bits are inverse ----------

  lemma AlphabetIndex(k: nat)
    requires k < 32
    ensures IndexOf(ALPHABET[k]) == k
  {
  }

  lemma GroupReadsBack(group: Bits)
    requires |group| == 5
    ensures IndexOf(Letter(group)) >= 0 && BitsOf(IndexOf(Letter(group)), 5) == group
  {
    assert Pow2(5) == 32;
    AlphabetIndex(ValueOf(group));
    BitsOfValue(group);
  }

  lemma LettersSplit(front: Bits, group: Bits)
    requires |front| % 5 == 0 && |group| == 5
    ensures Letters(front + group) == Letters(front) + [Letter(group)]
  {
    var bits, n := front + group, |front| / 5;
    assert |front| == 5 * n && |bits| / 5 == n + 1;
    forall i | 0 <= i < n
      ensures Letters(bits)[i] == Letters(front)[i]
    {
      assert bits[5 * i..5 * i + 5] == front[5 * i..5 * i + 5];
    }
    assert bits[5 * n..5 * n + 5] == group;
  }

  lemma {:induction false} LettersReadBack(bits: Bits)
    requires |bits| % 5 == 0
    ensures InAlphabet(Letters(bits)) && LetterBits(Letters(bits)) == bits
  {
    if bits != [] {
      var front, group := bits[..|bits| - 5], bits[|bits| - 5..];
      assert bits == front + group;
      LettersReadBack(front);
      GroupReadsBack(group);
      LettersSplit(front, group);
      LetterBitsAppend(Letters(front), Letter(group));
    }
  }

  lemma LetterBitsAppend(s: string, c: char)
    requires InAlphabet(s) && IndexOf(c) >= 0
    ensures InAlphabet(s + [c]) && LetterBits(s + [c]) == LetterBits(s) + BitsOf(IndexOf(c), 5)
  {
    assert (s + [c])[..|s|] == s;
  }

  lemma {:induction false} BitsSpellBack(s: string)
    requires InAlphabet(s)
    ensures Letters(LetterBits(s)) == s
  {
    var bits := LetterBits(s);
    forall i | 0 <= i < |s|
      ensures Letters(bits)[i] == s[i]
    {
      LetterBitsAt(s, i);
      assert Pow2(5) == 32;
      ValueOfBits(IndexOf(s[i]), 5);
    }
  }

  lemma {:induction false} LetterBitsAt(s: string, i: nat)
    requires InAlphabet(s) && i < |s|
    ensures LetterBits(s)[5 * i..5 * i + 5] == BitsOf(IndexOf(s[i]), 5)
  {
    var front, last := LetterBits(s[..|s| - 1]), BitsOf(IndexOf(s[|s| - 1]), 5);
    if i < |s| - 1 {
      LetterBitsAt(s[..|s| - 1], i);
      SliceInFront(front, last, 5 * i, 5 * i + 5);
    } else {
      SliceAtEnd(front, last);
    }
  }

  lemma {:induction false} ByteBitsAt(bytes: seq<Byte>, i: nat)
    requires i < |bytes|
    ensures ByteBits(bytes)[8 * i..8 * i + 8] == BitsOf(bytes[i], 8)
  {
    var front, last := ByteBits(bytes[..|bytes| - 1]), BitsOf(bytes[|bytes| - 1], 8);
    if i < |bytes| - 1 {
      ByteBitsAt(bytes[..|bytes| - 1], i);
      SliceInFront(front, last, 8 * i, 8 * i + 8);
    } else {
      SliceAtEnd(front, last);
    }
  }

  /** Fewer than eight bits after the bytes add no byte. */
  lemma BytesReadBack(bytes: seq<Byte>, tail: Bits)
    requires |tail| < 8
    ensures WholeBytes(ByteBits(bytes) + tail) == bytes
  {
    var bits := ByteBits(bytes) + tail;
    assert |bits| / 8 == |bytes|;
    forall i | 0 <= i < |bytes|
      ensures WholeBytes(bits)[i] == bytes[i]
    {
      ByteReadsBack(bytes, tail, i);
    }
  }

  lemma ByteReadsBack(bytes: seq<Byte>, tail: Bits, i: nat)
    requires i < |bytes|
    ensures ByteOf((ByteBits(bytes) + tail)[8 * i..8 * i + 8]) == bytes[i]
  {
    ByteBitsAt(bytes, i);
    SliceInFront(ByteBits(bytes), tail, 8 * i, 8 * i + 8);
    ByteOfBits(bytes[i]);
  }

  lemma SliceInFront(front: Bits, tail: Bits, lo: nat, hi: nat)
    requires lo <= hi <= |front|
    ensures (front + tail)[lo..hi] == front[lo..hi]
  {
  }

  lemma SliceAtEnd(front: Bits, last: Bits)
    ensures (front + last)[|front|..|front| + |last|] == last
  {
  }

  lemma ByteOfBits(b: Byte)
    ensures ByteOf(BitsOf(b, 8)) == b
  {
    assert Pow2(8) == 256;
    ValueOfBits(b, 8);
  }

  lemma WholeBytesSplit(front: Bits, last: Bits)
    requires |front| % 8 == 0 && |last| == 8
    ensures WholeBytes(front + last) == WholeBytes(front) + [ByteOf(last)]
  {
    var bits, n := front + last, |front| / 8;
    assert |front| == 8 * n && |bits| / 8 == n + 1;
    forall i | 0 <= i < n
      ensures WholeBytes(bits)[i] == WholeBytes(front)[i]
    {
      assert bits[8 * i..8 * i + 8] == front[8 * i..8 * i + 8];
    }
    assert bits[8 * n..8 * n + 8] == last;
  }

  lemma ByteBitsAppend(bytes: seq<Byte>, b: Byte)
    ensures ByteBits(bytes + [b]) == ByteBits(bytes) + BitsOf(b, 8)
  {
    assert (bytes + [b])[..|bytes|] == bytes;
  }

  lemma {:induction false} BytesSpellBack(bits: Bits)
    requires |bits| % 8 == 0
    ensures ByteBits(WholeBytes(bits)) == bits
  {
    if bits != [] {
      var front, last := bits[..|bits| - 8], bits[|bits| - 8..];
      assert bits == front + last;
      BytesSpellBack(front);
      BitsOfValue(last);
      WholeBytesSplit(front, last);
      ByteBitsAppend(WholeBytes(front), ByteOf(last));
    }
  }

  // ---------- round trips ----------

  /** `t` is an encoding with its letters in any case and white space anywhere. */
  ghost predicate Spells(t: string, bytes: seq<Byte>) {
    WithoutSpace(Upper(t)) == Encoded(bytes)
  }

  function Equals(k: nat): string {
    seq(k, i => '=')
  }

  lemma {:induction false} SpaceRemovalKeeps(s: string, c: char)
    requires !IsSpace(c)
    ensures c in s <==> c in WithoutSpace(s)
  {
    if s != "" {
      SpaceRemovalKeeps(s[..|s| - 1], c);
      assert s == s[..|s| - 1] + [s[|s| - 1]];
    }
  }

  lemma {:induction false} TrailingEqualsGo(t: string, k: nat)
    requires t == "" || t[|t| - 1] != '='
    ensures WithoutTrailingEquals(t + Equals(k)) == t
  {
    if k == 0 {
      assert t + Equals(0) == t;
    } else {
      TrailingEqualsGo(t, k - 1);
      assert (t + Equals(k))[..|t| + k - 1] == t + Equals(k - 1);
    }
  }

  lemma NoEqualsInCode(t: string, bytes: seq<Byte>)
    requires Spells(t, bytes)
    ensures '=' !in Upper(t)
  {
    LettersReadBack(Padded(ByteBits(bytes)));
    SpaceRemovalKeeps(Upper(t), '=');
    assert IndexOf('=') < 0;
  }

  lemma CleanSpelled(bytes: seq<Byte>, t: string, k: nat)
    requires Spells(t, bytes)
    ensures Clean(t + Equals(k)) == Encoded(bytes)
  {
    NoEqualsInCode(t, bytes);
    UpperKeeps(t, Equals(k));
    TrailingEqualsGo(Upper(t), k);
  }

  /** Decoding undoes encoding, for every byte string, in any case, spacing and padding. */
  lemma RoundTrip(bytes: seq<Byte>, t: string, k: nat)
    requires Spells(t, bytes)
    ensures Decoded(t + Equals(k)) == Success(bytes)
  {
    var bits := ByteBits(bytes);
    CleanSpelled(bytes, t, k);
    LettersReadBack(Padded(bits));
    PaddingAddsNoByte(bytes);
  }

  /** `t` is `code` with some of its letters small and spaces, tabs and line ends put in. */
  ghost predicate Respells(t: string, code: string) {
    if t == "" then code == ""
    else
      var c, init := t[|t| - 1], t[..|t| - 1];
      || (c in {' ', '\t', '\n', '\r'} && Respells(init, code))
      || (code != "" && Respells(init, code[..|code| - 1])
          && var letter := code[|code| - 1];
             c == letter || ('A' <= letter <= 'Z' && c as int == letter as int + 32))
  }

  lemma SmallOrCapital(c: char, letter: char)
    requires IndexOf(letter) >= 0 && (c == letter || ('A' <= letter <= 'Z' && c as int == letter as int + 32))
    ensures UpperChar(c) == [letter] && !IsSpace(letter)
  {
  }

  lemma BlankStays(c: char)
    requires c in {' ', '\t', '\n', '\r'}
    ensures UpperChar(c) == [c] && IsSpace(c)
  {
  }

  lemma OneMoreCharacter(init: string, c: char, x: char)
    requires UpperChar(c) == [x]
    ensures WithoutSpace(Upper(init + [c])) == WithoutSpace(Upper(init)) + (if IsSpace(x) then "" else [x])
  {
    UpperAppend(init, c);
    var upper := Upper(init) + [x];
    assert upper[..|upper| - 1] == Upper(init);
  }

  lemma {:induction false} RespellingCleans(t: string, code: string)
    requires Respells(t, code) && InAlphabet(code)
    ensures WithoutSpace(Upper(t)) == code
  {
    if t != "" {
      var c, init := t[|t| - 1], t[..|t| - 1];
      assert t == init + [c];
      if c in {' ', '\t', '\n', '\r'} && Respells(init, code) {
        RespellingCleans(init, code);
        BlankStays(c);
        OneMoreCharacter(init, c, c);
        assert code + "" == code;
      } else {
        var front, letter := code[..|code| - 1], code[|code| - 1];
        assert IndexOf(letter) >= 0 && front + [letter] == code;
        RespellingCleans(init, front);
        SmallOrCapital(c, letter);
        OneMoreCharacter(init, c, letter);
      }
    }
  }

  /** An encoding decodes with its letters small or capital, with white space anywhere, and with any padding. */
  lemma DecodesInAnyCase(bytes: seq<Byte>, t: string, k: nat)
    requires Respells(t, Encoded(bytes))
    ensures Decoded(t + Equals(k)) == Success(bytes)
  {
    LettersReadBack(Padded(ByteBits(bytes)));
    RespellingCleans(t, Encoded(bytes));
    RoundTrip(bytes, t, k);
  }

  lemma PaddingAddsNoByte(bytes: seq<Byte>)
    ensures WholeBytes(Padded(ByteBits(bytes))) == bytes
  {
    BytesReadBack(bytes, Zeros((5 - |ByteBits(bytes)| % 5) % 5));
  }

  lemma EncodedSpells(bytes: seq<Byte>)
    ensures Spells(Encoded(bytes), bytes)
  {
    var code := Encoded(bytes);
    LettersReadBack(Padded(ByteBits(bytes)));
    AlphabetCleansToItself(code);
  }

  lemma AlphabetCleansToItself(s: string)
    requires InAlphabet(s)
    ensures WithoutSpace(Upper(s)) == s
  {
    AlphabetIsClean(s);
    UpperKeeps("", s);
    assert "" + s == s;
    NothingToRemove(s);
  }

  lemma AlphabetIsClean(s: string)
    requires InAlphabet(s)
    ensures Unchanged(s) && forall i :: 0 <= i < |s| ==> !IsSpace(s[i])
  {
    forall i | 0 <= i < |s|
      ensures UpperChar(s[i]) == [s[i]] && !IsSpace(s[i])
    {
      assert IndexOf(s[i]) >= 0;
    }
  }

  lemma {:induction false} NothingToRemove(s: string)
    requires forall i :: 0 <= i < |s| ==> !IsSpace(s[i])
    ensures WithoutSpace(s) == s
  {
    if s != "" {
      NothingToRemove(s[..|s| - 1]);
    }
  }

  /** White space after the padding is where the tolerance ends: the `=` stays and is refused. */
  lemma SpaceAfterPadding(bytes: seq<Byte>, t: string, k: nat, space: string)
    requires Spells(t, bytes) && k > 0 && forall i :: 0 <= i < |space| ==> IsSpace(space[i])
    ensures Decoded(t + Equals(k) + space) == Success(bytes) <==> space == ""
  {
    var s := t + Equals(k) + space;
    if space == "" {
      RoundTrip(bytes, t, k);
      assert s == t + Equals(k);
    } else {
      assert s == t + (Equals(k) + space);
      SpaceIsUnchanged(Equals(k) + space);
      UpperKeeps(t, Equals(k) + space);
      EqualsBeforeSpace(Upper(t), k, space);
      EqualsIsRefused(s);
    }
  }

  lemma SpaceIsUnchanged(s: string)
    requires forall i :: 0 <= i < |s| ==> IsSpace(s[i]) || s[i] == '='
    ensures Unchanged(s)
  {
  }

  lemma EqualsIsRefused(s: string)
    requires '=' in Clean(s)
    ensures Decoded(s).Failure?
  {
    var clean := Clean(s);
    var i :| 0 <= i < |clean| && clean[i] == '=';
    assert IndexOf(clean[i]) < 0;
  }

  lemma EqualsBeforeSpace(t: string, k: nat, space: string)
    requires k > 0 && space != "" && forall i :: 0 <= i < |space| ==> IsSpace(space[i])
    ensures '=' in WithoutSpace(WithoutTrailingEquals(t + (Equals(k) + space)))
  {
    var u := t + (Equals(k) + space);
    assert u[|u| - 1] == space[|space| - 1];
    assert WithoutTrailingEquals(u) == u;
    assert u[|t|] == '=';
    SpaceRemovalKeeps(u, '=');
  }

  /**
   The other way round: a cleaned secret is the encoding of its bytes exactly when the dropped bits
   are a zero padding.
   */
  lemma CanonicalExactlyWhen(s: string)
    requires InAlphabet(s)
    ensures var bits := LetterBits(s);
            var whole := |bits| / 8 * 8;
            Encoded(WholeBytes(bits)) == s <==> |bits| - whole < 5 && forall i :: whole <= i < |bits| ==> !bits[i]
  {
    var bits := LetterBits(s);
    var whole := |bits| / 8 * 8;
    BytesOfPrefix(bits);
    BytesSpellBack(bits[..whole]);
    var padded := Padded(bits[..whole]);
    assert Encoded(WholeBytes(bits)) == Letters(padded);
    LettersReadBack(padded);
    BitsSpellBack(s);
    assert Encoded(WholeBytes(bits)) == s <==> padded == bits;
    PaddedIsWhole(bits, whole);
  }

  /** Padding a prefix gives the bits back when the rest is a short run of zeros. */
  lemma PaddedIsWhole(bits: Bits, whole: nat)
    requires whole <= |bits| && |bits| % 5 == 0
    ensures Padded(bits[..whole]) == bits <==> |bits| - whole < 5 && forall i :: whole <= i < |bits| ==> !bits[i]
  {
    var padded := Padded(bits[..whole]);
    if |bits| - whole < 5 {
      assert |padded| == |bits|;
    }
    if |padded| == |bits| {
      assert forall i :: 0 <= i < whole ==> padded[i] == bits[i];
      assert forall i :: whole <= i < |bits| ==> !padded[i];
    }
  }

  lemma BytesOfPrefix(bits: Bits)
    ensures WholeBytes(bits) == WholeBytes(bits[..|bits| / 8 * 8])
  {
    var front := bits[..|bits| / 8 * 8];
    assert forall i :: 0 <= i < |bits| / 8 ==> front[8 * i..8 * i + 8] == bits[8 * i..8 * i + 8];
  }

  /** Different secrets never share an encoding. */
  lemma EncodedInjective(a: seq<Byte>, b: seq<Byte>)
    requires Encoded(a) == Encoded(b)
    ensures a == b
  {
    EncodedSpells(a);
    EncodedSpells(b);
    RoundTrip(a, Encoded(a), 0);
    RoundTrip(b, Encoded(b), 0);
  }

  // ---------- the loops of the source ----------

  lemma ByteBitsStep(bytes: seq<Byte>, i: nat)
    requires i < |bytes|
    ensures ByteBits(bytes[..i + 1]) == ByteBits(bytes[..i]) + BitsOf(bytes[i], 8)
  {
    assert bytes[..i + 1] == bytes[..i] + [bytes[i]];
    ByteBitsAppend(bytes[..i], bytes[i]);
  }

  method Encode(bytes: seq<Byte>) returns (output: string)
    ensures output == Encoded(bytes)
  {
    var bits: Bits := [];
    for k := 0 to |bytes|
      invariant bits == ByteBits(bytes[..k])
    {
      ByteBitsStep(bytes, k);
      bits := bits + BitsOf(bytes[k], 8);
    }
    assert bytes[..|bytes|] == bytes;
    output := SpellBits(bits);
  }

  /** The second loop: groups of five, the last one filled up. */
  method SpellBits(bits: Bits) returns (output: string)
    ensures output == Letters(Padded(bits))
  {
    output := "";
    var i := 0;
    var padded := Padded(bits);
    while i < |bits|
      invariant 0 <= i <= |padded| && i % 5 == 0
      invariant output == Letters(padded)[..i / 5]
      decreases |bits| - i
    {
      var end := if i + 5 <= |bits| then i + 5 else |bits|;
      var chunk := bits[i..end] + Zeros(5 - (end - i));
      assert chunk == padded[i..i + 5];
      assert 5 * (i / 5) == i;
      output := output + [Letter(chunk)];
      i := i + 5;
    }
  }

  lemma NextLetter(s: string, k: nat)
    requires k < |s| && InAlphabet(s[..k]) && IndexOf(s[k]) >= 0
    ensures InAlphabet(s[..k + 1]) && LetterBits(s[..k + 1]) == LetterBits(s[..k]) + BitsOf(IndexOf(s[k]), 5)
  {
    assert s[..k + 1] == s[..k] + [s[k]];
    LetterBitsAppend(s[..k], s[k]);
  }

  method Decode(input: string) returns (r: Result<seq<Byte>, DecodeError>)
    ensures r == Decoded(input)
  {
    var clean := Clean(input);
    var bits: Bits := [];
    for k := 0 to |clean|
      invariant InAlphabet(clean[..k])
      invariant bits == LetterBits(clean[..k])
    {
      var value := IndexOf(clean[k]);
      if value < 0 {
        return Failure(InvalidSecret);
      }
      NextLetter(clean, k);
      bits := bits + BitsOf(value, 5);
    }
    assert clean[..|clean|] == clean;
    var bytes := CollectBytes(bits);
    return Success(bytes);
  }

  method CollectBytes(bits: Bits) returns (bytes: seq<Byte>)
    ensures bytes == WholeBytes(bits)
  {
    bytes := [];
    var i := 0;
    while i + 8 <= |bits|
      invariant 0 <= i <= |bits| && i % 8 == 0
      invariant bytes == WholeBytes(bits)[..i / 8]
    {
      assert 8 * (i / 8) == i;
      bytes := bytes + [ByteOf(bits[i..i + 8])];
      i := i + 8;
    }
  }

  // ---------- codes ----------

  /** The last four bits of the digest choose four of its bytes; the top bit is masked. */
  function Truncated(digest: seq<Byte>): (n: nat)
    requires |digest| == 20
    ensures n < 0x8000_0000
  {
    var offset := digest[19] % 16;
    LowThirtyOne(digest[offset], digest[offset + 1], digest[offset + 2], digest[offset + 3])
  }

  /** `((a & 0x7f) << 24) | (b << 16) | (c << 8) | d`, the parts not overlapping. */
  function LowThirtyOne(a: int, b: int, c: int, d: int): (n: nat)
    requires 0 <= a < 256 && 0 <= b < 256 && 0 <= c < 256 && 0 <= d < 256
    ensures n < 0x8000_0000
  {
    (a % 128) * 0x100_0000 + b * 0x1_0000 + c * 0x100 + d
  }

  function PadStart(s: string, w: nat): string {
    if |s| >= w then s else seq(w - |s|, i => '0') + s
  }

  function TotpAt(digest: seq<Byte>): string
    requires |digest| == 20
  {
    PadStart(Decimal.Print(Truncated(digest) % 1000000), 6)
  }

  lemma {:induction false} PrintLength(n: nat, w: nat)
    requires w > 0 && n < Pow10(w)
    ensures |Decimal.Print(n)| <= w
  {
    if n >= 10 {
      PrintLength(n / 10, w - 1);
    }
  }

  function Pow10(w: nat): nat {
    if w == 0 then 1 else 10 * Pow10(w - 1)
  }

  lemma {:induction false} LeadingZeros(k: nat, s: string)
    requires forall i :: 0 <= i < |s| ==> '0' <= s[i] <= '9'
    ensures Decimal.Read(seq(k, i => '0') + s) == Decimal.Read(s)
  {
    var all := seq(k, i => '0') + s;
    if s != "" {
      LeadingZeros(k, s[..|s| - 1]);
      assert all[..|all| - 1] == seq(k, i => '0') + s[..|s| - 1];
    } else if k > 0 {
      LeadingZeros(k - 1, s);
      assert all[..|all| - 1] == seq(k - 1, i => '0') + s;
    }
  }

  lemma PadReads(s: string, w: nat)
    requires |s| <= w && forall i :: 0 <= i < |s| ==> '0' <= s[i] <= '9'
    ensures var p := PadStart(s, w);
            |p| == w && (forall i :: 0 <= i < w ==> '0' <= p[i] <= '9') && Decimal.Read(p) == Decimal.Read(s)
  {
    if |s| < w {
      LeadingZeros(w - |s|, s);
    }
  }

  lemma SixDigits(n: nat)
    requires n < 1000000
    ensures var code := PadStart(Decimal.Print(n), 6);
            |code| == 6 && (forall i :: 0 <= i < 6 ==> '0' <= code[i] <= '9') && Decimal.Read(code) == n
  {
    assert Pow10(6) == 1000000;
    PrintLength(n, 6);
    PadReads(Decimal.Print(n), 6);
    Decimal.ReadPrint(n);
  }

  /** A code has six digits, and they are the low 31 bits of the chosen bytes modulo a million. */
  lemma CodeIsSixDigits(digest: seq<Byte>)
    requires |digest| == 20
    ensures var code := TotpAt(digest);
            && |code| == 6 && (forall i :: 0 <= i < 6 ==> '0' <= code[i] <= '9')
            && Decimal.Read(code) == ValueOf(ByteBits(digest[digest[19] % 16..digest[19] % 16 + 4])[1..]) % 1000000
  {
    SixDigits(Truncated(digest) % 1000000);
    TruncatedIsLowBits(digest);
  }

  lemma {:induction false} ValueAppend(a: Bits, b: Bits)
    ensures ValueOf(a + b) == ValueOf(a) * Pow2(|b|) + ValueOf(b)
  {
    if b == [] {
      assert a + b == a;
    } else {
      var front, x := b[..|b| - 1], b[|b| - 1];
      ValueAppend(a, front);
      assert b == front + [x] && a + b == (a + front) + [x];
      ValueAppendOne(a, front, x);
    }
  }

  lemma ValueAppendOne(a: Bits, front: Bits, x: bool)
    requires ValueOf(a + front) == ValueOf(a) * Pow2(|front|) + ValueOf(front)
    ensures ValueOf((a + front) + [x]) == ValueOf(a) * Pow2(|front + [x]|) + ValueOf(front + [x])
  {
    ValueStep(front, x);
    ValueStep(a + front, x);
    Doubled(ValueOf(a), Pow2(|front|));
  }

  lemma ValueStep(bits: Bits, x: bool)
    ensures ValueOf(bits + [x]) == 2 * ValueOf(bits) + (if x then 1 else 0) && Pow2(|bits + [x]|) == 2 * Pow2(|bits|)
  {
    assert (bits + [x])[..|bits|] == bits;
  }

  lemma Doubled(x: nat, p: nat)
    ensures x * (2 * p) == 2 * (x * p)
  {
  }

  lemma ValueAppendByte(a: Bits, b: Byte)
    ensures ValueOf(a + BitsOf(b, 8)) == ValueOf(a) * 256 + b
  {
    assert Pow2(8) == 256;
    ValueAppend(a, BitsOf(b, 8));
    ValueOfBits(b, 8);
  }

  lemma TruncatedIsLowBits(digest: seq<Byte>)
    requires |digest| == 20
    ensures Truncated(digest) == ValueOf(ByteBits(digest[digest[19] % 16..digest[19] % 16 + 4])[1..])
  {
    var four := digest[digest[19] % 16..digest[19] % 16 + 4];
    LowBits(four[0], four[1], four[2], four[3]);
    assert four == [four[0], four[1], four[2], four[3]];
  }

  lemma LowBits(a: Byte, b: Byte, c: Byte, d: Byte)
    ensures ValueOf(ByteBits([a, b, c, d])[1..]) == LowThirtyOne(a, b, c, d)
  {
    FourBytes(a, b, c, d);
    var top := BitsOf(a, 8)[1..];
    TopBitMasked(a);
    ValueAppendByte(top, b);
    ValueAppendByte(top + BitsOf(b, 8), c);
    ValueAppendByte(top + BitsOf(b, 8) + BitsOf(c, 8), d);
  }

  lemma FourBytes(a: Byte, b: Byte, c: Byte, d: Byte)
    ensures ByteBits([a, b, c, d])[1..] == BitsOf(a, 8)[1..] + BitsOf(b, 8) + BitsOf(c, 8) + BitsOf(d, 8)
  {
    ByteBitsAppend([], a);
    assert [] + [a] == [a] && [] + BitsOf(a, 8) == BitsOf(a, 8);
    TailAppend([a], b);
    TailAppend([a] + [b], c);
    TailAppend([a] + [b] + [c], d);
    assert [a] + [b] + [c] + [d] == [a, b, c, d];
  }

  lemma TailAppend(bytes: seq<Byte>, b: Byte)
    requires bytes != []
    ensures ByteBits(bytes + [b])[1..] == ByteBits(bytes)[1..] + BitsOf(b, 8)
  {
    ByteBitsAppend(bytes, b);
  }

  lemma TopBitMasked(a: Byte)
    ensures ValueOf(BitsOf(a, 8)[1..]) == a % 128
  {
    var bits := BitsOf(a, 8);
    var high, low := ValueOf(bits[..1]), ValueOf(bits[1..]);
    assert Pow2(8) == 256;
    ValueOfBits(a, 8);
    assert bits == bits[..1] + bits[1..];
    ValueAppend(bits[..1], bits[1..]);
    SplitAt128(a, high, low);
  }

  lemma SplitAt128(a: Byte, high: nat, low: nat)
    requires a == high * Pow2(7) + low && high < Pow2(1) && low < Pow2(7)
    ensures low == a % 128
  {
    assert Pow2(7) == 128 && Pow2(1) == 2;
  }

  // ---------- the same number in two notations ----------

  /** Bytes as the digits of a number to base 256. */
  function NumberOfBytes(bytes: seq<Byte>): nat {
    if bytes == [] then 0 else 256 * NumberOfBytes(bytes[..|bytes| - 1]) + bytes[|bytes| - 1]
  }

  /** The value of a letter, from table 3 of RFC 4648. */
  function DigitValue(c: char): nat
    requires 'A' <= c <= 'Z' || '2' <= c <= '7'
  {
    if c >= 'A' then c as int - 'A' as int else 26 + c as int - '2' as int
  }

  predicate IsCode(s: string) {
    forall i :: 0 <= i < |s| ==> 'A' <= s[i] <= 'Z' || '2' <= s[i] <= '7'
  }

  /** Letters as the digits of a number to base 32. */
  function NumberOfLetters(s: string): nat
    requires IsCode(s)
  {
    if s == "" then 0 else 32 * NumberOfLetters(s[..|s| - 1]) + DigitValue(s[|s| - 1])
  }

  lemma {:induction false} ByteBitsValue(bytes: seq<Byte>)
    ensures ValueOf(ByteBits(bytes)) == NumberOfBytes(bytes)
  {
    if bytes != [] {
      ByteBitsValue(bytes[..|bytes| - 1]);
      ValueAppendByte(ByteBits(bytes[..|bytes| - 1]), bytes[|bytes| - 1]);
    }
  }

  lemma AlphabetIsCode(s: string)
    requires InAlphabet(s)
    ensures IsCode(s) && forall i :: 0 <= i < |s| ==> IndexOf(s[i]) == DigitValue(s[i])
  {
    forall i | 0 <= i < |s|
      ensures ('A' <= s[i] <= 'Z' || '2' <= s[i] <= '7') && IndexOf(s[i]) == DigitValue(s[i])
    {
      assert IndexOf(s[i]) >= 0;
    }
  }

  lemma ValueAppendGroup(a: Bits, k: nat)
    requires k < 32
    ensures ValueOf(a + BitsOf(k, 5)) == ValueOf(a) * 32 + k
  {
    assert Pow2(5) == 32;
    ValueAppend(a, BitsOf(k, 5));
    ValueOfBits(k, 5);
  }

  lemma {:induction false} LetterBitsValue(s: string)
    requires InAlphabet(s) && IsCode(s) && forall i :: 0 <= i < |s| ==> IndexOf(s[i]) == DigitValue(s[i])
    ensures ValueOf(LetterBits(s)) == NumberOfLetters(s)
  {
    if s != "" {
      var init, k := s[..|s| - 1], IndexOf(s[|s| - 1]);
      LetterBitsValue(init);
      ValueAppendGroup(LetterBits(init), k);
      assert LetterBits(s) == LetterBits(init) + BitsOf(k, 5);
    }
  }

  lemma {:induction false} ZerosValue(n: nat)
    ensures ValueOf(Zeros(n)) == 0
  {
    if n > 0 {
      ZerosValue(n - 1);
      assert Zeros(n)[..n - 1] == Zeros(n - 1);
    }
  }

  /** An encoding is the number of its bytes written to base 32, with the zero bits that fill its last letter. */
  lemma EncodesTheNumber(bytes: seq<Byte>)
    ensures var code := Encoded(bytes);
            && IsCode(code) && 8 * |bytes| <= 5 * |code| < 8 * |bytes| + 5
            && NumberOfLetters(code) == NumberOfBytes(bytes) * Pow2(5 * |code| - 8 * |bytes|)
  {
    var bits := ByteBits(bytes);
    LettersReadBack(Padded(bits));
    AlphabetIsCode(Encoded(bytes));
    LetterBitsValue(Encoded(bytes));
    ByteBitsValue(bytes);
    PaddedValue(bits);
  }

  lemma PaddedValue(bits: Bits)
    ensures ValueOf(Padded(bits)) == ValueOf(bits) * Pow2(|Padded(bits)| - |bits|)
  {
    var filled := Zeros((5 - |bits| % 5) % 5);
    ValueAppend(bits, filled);
    ZerosValue(|filled|);
  }
}
