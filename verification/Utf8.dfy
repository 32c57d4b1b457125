/** Decoding bytes as text the lossy way: every maximal invalid stretch is replaced by
    the replacement character (the Unicode Standard, section 3.9, Table 3-7), as the
    reader of strings does (crates/snapcast-proto/src/message/wire.rs). Text is kept
    as its UTF-8 bytes. */
module Utf8 {
  import opened Bytes

  /** The encoding of U+FFFD. */
  const REPLACEMENT: seq<byte> := [0xEF, 0xBF, 0xBD]

  /** Length of the sequence a first byte announces; 0 if it cannot be one. */
  function Announced(b: byte): nat {
    if b < 0x80 then 1
    else if 0xC2 <= b <= 0xDF then 2
    else if 0xE0 <= b <= 0xEF then 3
    else if 0xF0 <= b <= 0xF4 then 4
    else 0
  }

  /** What the second byte may be after this first one. */
  predicate SecondByte(first: byte, b: byte) {
    match first
    case 0xE0 => 0xA0 <= b <= 0xBF
    case 0xED => 0x80 <= b <= 0x9F
    case 0xF0 => 0x90 <= b <= 0xBF
    case 0xF4 => 0x80 <= b <= 0x8F
    case _ => 0x80 <= b <= 0xBF
  }

  predicate Continues(b: byte) {
    0x80 <= b <= 0xBF
  }

  /** How many bytes at the front belong together: a whole character, or the longest
      start of one, or a single byte that cannot start any. */
  function Together(s: seq<byte>): (n: nat)
    requires s != []
    ensures 1 <= n <= |s| && n <= 4
  {
    if Announced(s[0]) <= 1 || |s| < 2 || !SecondByte(s[0], s[1]) then 1
    else if Announced(s[0]) == 2 || |s| < 3 || !Continues(s[2]) then 2
    else if Announced(s[0]) == 3 || |s| < 4 || !Continues(s[3]) then 3
    else 4
  }

  /** The bytes at the front are a whole character. */
  predicate StartsWithCharacter(s: seq<byte>) {
    s != [] && Together(s) == Announced(s[0])
  }

  predicate IsUtf8(s: seq<byte>) {
    s == [] || (StartsWithCharacter(s) && IsUtf8(s[Together(s)..]))
  }

  function Lossy(s: seq<byte>): seq<byte> {
    if s == [] then []
    else (if StartsWithCharacter(s) then s[..Together(s)] else REPLACEMENT) + Lossy(s[Together(s)..])
  }

  /** Text that is valid is left as it is. */
  lemma {:induction false} LossyKeepsText(s: seq<byte>)
    requires IsUtf8(s)
    ensures Lossy(s) == s
  {
    if s != [] {
      LossyKeepsText(s[Together(s)..]);
    }
  }

  /** The front of a character followed by anything is that character. */
  lemma CharacterInFront(c: seq<byte>, rest: seq<byte>)
    requires StartsWithCharacter(c) && Together(c) == |c|
    ensures StartsWithCharacter(c + rest) && Together(c + rest) == |c|
    ensures (c + rest)[|c|..] == rest
  {
  }

  lemma CharacterAlone(s: seq<byte>)
    requires StartsWithCharacter(s)
    ensures StartsWithCharacter(s[..Together(s)]) && Together(s[..Together(s)]) == Together(s)
  {
  }

  /** Whatever was read is valid text afterwards. */
  lemma {:induction false} LossyIsText(s: seq<byte>)
    ensures IsUtf8(Lossy(s))
  {
    if s != [] {
      LossyIsText(s[Together(s)..]);
      var front := if StartsWithCharacter(s) then s[..Together(s)] else REPLACEMENT;
      if StartsWithCharacter(s) {
        CharacterAlone(s);
      }
      CharacterInFront(front, Lossy(s[Together(s)..]));
    }
  }

  /** Bytes survive reading exactly if they were valid text. */
  lemma LossyIsIdentity(s: seq<byte>)
    ensures Lossy(s) == s <==> IsUtf8(s)
  {
    LossyIsText(s);
    if IsUtf8(s) {
      LossyKeepsText(s);
    }
  }

  /** Replacing makes text at most three times as long. */
  lemma {:induction false} LossyLength(s: seq<byte>)
    ensures |Lossy(s)| <= 3 * |s|
  {
    if s != [] {
      LossyLength(s[Together(s)..]);
    }
  }

  /** The smallest input that does not survive: one byte that is no character. */
  lemma LoneByteIsReplaced(b: byte)
    requires Announced(b) == 0
    ensures !IsUtf8([b]) && Lossy([b]) == REPLACEMENT
  {
    assert [b][1..] == [];
  }

  // ----- Characters as numbers -----

  /** A character's number: below 0x110000, and no surrogate. */
  predicate IsScalar(cp: nat) {
    cp < 0xD800 || 0xE000 <= cp < 0x11_0000
  }

  /** The bytes of a character: one to four, six bits in every byte but the first. */
  function Encoding(cp: nat): (s: seq<byte>)
    requires IsScalar(cp)
    ensures 1 <= |s| <= 4
  {
    if cp < 0x80 then [cp as byte]
    else if cp < 0x800 then [(0xC0 + cp / 64) as byte, (0x80 + cp % 64) as byte]
    else if cp < 0x1_0000 then
      [(0xE0 + cp / 4096) as byte, (0x80 + cp / 64 % 64) as byte, (0x80 + cp % 64) as byte]
    else
      [(0xF0 + cp / 262_144) as byte, (0x80 + cp / 4096 % 64) as byte, (0x80 + cp / 64 % 64) as byte,
       (0x80 + cp % 64) as byte]
  }

  lemma EncodingIsCharacter(cp: nat, rest: seq<byte>)
    requires IsScalar(cp)
    ensures var s := Encoding(cp) + rest;
            StartsWithCharacter(s) && Together(s) == |Encoding(cp)| && s[Together(s)..] == rest
  {
    if 0x800 <= cp < 0x1_0000 {
      assert cp / 64 % 64 == cp / 64 - 64 * (cp / 4096);
    } else if cp >= 0x1_0000 {
      assert cp / 4096 % 64 == cp / 4096 - 64 * (cp / 262_144);
    }
  }

  /** The number of the character at the front. */
  lemma CharacterIsEncoding(s: seq<byte>) returns (cp: nat)
    requires StartsWithCharacter(s)
    ensures IsScalar(cp) && Encoding(cp) == s[..Together(s)]
  {
    var n := Together(s);
    if n == 1 {
      cp := s[0] as nat;
    } else if n == 2 {
      cp := (s[0] as nat - 0xC0) * 64 + (s[1] as nat - 0x80);
    } else if n == 3 {
      cp := ThreeBytes(s);
    } else {
      cp := FourBytes(s);
    }
  }

  lemma ThreeBytes(s: seq<byte>) returns (cp: nat)
    requires StartsWithCharacter(s) && Together(s) == 3
    ensures IsScalar(cp) && Encoding(cp) == s[..3]
  {
    var a, b, c := s[0] as nat - 0xE0, s[1] as nat - 0x80, s[2] as nat - 0x80;
    cp := a * 4096 + b * 64 + c;
    ThreeDigits(a, b, c);
  }

  lemma FourBytes(s: seq<byte>) returns (cp: nat)
    requires StartsWithCharacter(s) && Together(s) == 4
    ensures IsScalar(cp) && Encoding(cp) == s[..4]
  {
    var a, b, c, d := s[0] as nat - 0xF0, s[1] as nat - 0x80, s[2] as nat - 0x80, s[3] as nat - 0x80;
    cp := a * 262_144 + b * 4096 + c * 64 + d;
    ThreeDigits(a * 64 + b, c, d);
  }

  lemma ThreeDigits(a: nat, b: nat, c: nat)
    requires b < 64 && c < 64
    ensures (a * 4096 + b * 64 + c) % 64 == c && (a * 4096 + b * 64 + c) / 64 == a * 64 + b
    ensures (a * 64 + b) % 64 == b && (a * 4096 + b * 64 + c) / 4096 == a
  {
  }

  ghost predicate AllScalars(cps: seq<nat>) {
    forall i :: 0 <= i < |cps| ==> IsScalar(cps[i])
  }

  function EncodedText(cps: seq<nat>): seq<byte>
    requires AllScalars(cps)
  {
    if cps == [] then [] else Encoding(cps[0]) + EncodedText(cps[1..])
  }

  lemma {:induction false} EncodedIsText(cps: seq<nat>)
    requires AllScalars(cps)
    ensures IsUtf8(EncodedText(cps))
  {
    if cps != [] {
      EncodedIsText(cps[1..]);
      EncodingIsCharacter(cps[0], EncodedText(cps[1..]));
    }
  }

  lemma {:induction false} TextHasScalars(s: seq<byte>) returns (cps: seq<nat>)
    requires IsUtf8(s)
    ensures AllScalars(cps) && EncodedText(cps) == s
  {
    cps := [];
    if s != [] {
      var cp := CharacterIsEncoding(s);
      var rest := TextHasScalars(s[Together(s)..]);
      cps := [cp] + rest;
      assert cps[1..] == rest;
    }
  }

  /** Text is valid exactly if it is the encoding of some characters. */
  lemma TextIsEncoded(s: seq<byte>)
    ensures IsUtf8(s) <==> exists cps: seq<nat> :: AllScalars(cps) && EncodedText(cps) == s
  {
    if IsUtf8(s) {
      var cps := TextHasScalars(s);
    }
    forall cps: seq<nat> | AllScalars(cps) && EncodedText(cps) == s
      ensures IsUtf8(s)
    {
      EncodedIsText(cps);
    }
  }

  /** These bytes are the start of some character, and not all of it. */
  ghost predicate PartOfCharacter(s: seq<byte>) {
    exists cp :: IsScalar(cp) && |s| < |Encoding(cp)| && Encoding(cp)[..|s|] == s
  }

  /** What one replacement character stands for: the longest start of a character there
      is at the front, or one byte if there is none. */
  lemma ReplacedIsMaximal(s: seq<byte>)
    requires s != [] && !StartsWithCharacter(s)
    ensures Together(s) == 1 || PartOfCharacter(s[..Together(s)])
    ensures forall n :: Together(s) < n <= |s| ==> !PartOfCharacter(s[..n])
  {
    if Together(s) > 1 {
      LowestBehind(s);
    }
    forall n | Together(s) < n <= |s|
      ensures !PartOfCharacter(s[..n])
    {
      NoLongerPart(s, n);
    }
  }

  /** The start of a character, filled up with the lowest bytes there are. */
  lemma LowestBehind(s: seq<byte>)
    requires s != [] && !StartsWithCharacter(s) && Together(s) > 1
    ensures PartOfCharacter(s[..Together(s)])
  {
    var n := Together(s);
    var full := s[..n] + if Announced(s[0]) - n == 1 then [0x80] else [0x80, 0x80];
    assert StartsWithCharacter(full) && Together(full) == |full|;
    var cp := CharacterIsEncoding(full);
    assert full[..|full|] == full;
    assert Encoding(cp)[..n] == s[..n];
    assert |s[..n]| == n < |Encoding(cp)|;
  }

  lemma NoLongerPart(s: seq<byte>, n: nat)
    requires s != [] && !StartsWithCharacter(s) && Together(s) < n <= |s|
    ensures !PartOfCharacter(s[..n])
  {
    forall cp | IsScalar(cp) && n < |Encoding(cp)|
      ensures Encoding(cp)[..n] != s[..n]
    {
      EncodingIsCharacter(cp, []);
      assert Encoding(cp) + [] == Encoding(cp);
      if Encoding(cp)[..n] == s[..n] {
        SameStart(Encoding(cp), s, n);
      }
    }
  }

  /** What belongs together shows in the first bytes. */
  lemma SameStart(a: seq<byte>, b: seq<byte>, n: nat)
    requires n <= |a| && n <= |b| && n > 0 && a[..n] == b[..n]
    ensures Together(b) < n ==> Together(a) == Together(b)
  {
    assert forall i :: 0 <= i < n ==> a[i] == a[..n][i] == b[i];
  }
}
