/** What the byte-level checks of stored texts mean in characters: Rust's `String::from_utf8` and `str::trim`. */
module Utf8 {
  import opened Base
  import opened RegistryText
  import opened Texts

  /** A Unicode scalar value. */
  type Scalar = c: int | 0 <= c < 0xD800 || 0xE000 <= c <= 0x10FFFF

  function EncodeScalar(c: Scalar): (t: Text)
    ensures 1 <= |t| <= 4
  {
    if c < 0x80 then [c]
    else if c < 0x800 then [0xC0 + c / 0x40, 0x80 + c % 0x40]
    else if c < 0x1_0000 then [0xE0 + c / 0x1000, 0x80 + c / 0x40 % 0x40, 0x80 + c % 0x40]
    else [0xF0 + c / 0x4_0000, 0x80 + c / 0x1000 % 0x40, 0x80 + c / 0x40 % 0x40, 0x80 + c % 0x40]
  }

  function EncodeText(cs: seq<Scalar>): Text {
    if cs == [] then [] else EncodeScalar(cs[0]) + EncodeText(cs[1..])
  }

  /** Exactly the first character is taken. */
  lemma EncodedIsTaken(c: Scalar, rest: Text)
    ensures CharLength(EncodeScalar(c) + rest) == |EncodeScalar(c)|
  {
    var t := EncodeScalar(c) + rest;
    assert c == 0x40 * (c / 0x40) + c % 0x40;
    assert c / 0x40 == 0x40 * (c / 0x1000) + c / 0x40 % 0x40;
    assert c / 0x1000 == 0x40 * (c / 0x4_0000) + c / 0x1000 % 0x40;
  }

  /** Six more bits. */
  function Extended(high: nat, low: nat): (n: nat)
    requires low < 0x40
    ensures n / 0x40 == high && n % 0x40 == low
    ensures n / 0x1000 == high / 0x40 && n / 0x4_0000 == high / 0x1000
  {
    0x40 * high + low
  }

  lemma TwoAreEncoded(t: Text) returns (c: Scalar)
    requires CharLength(t) == 2
    ensures t[..2] == EncodeScalar(c)
  {
    c := Extended(t[0] - 0xC0, t[1] - 0x80);
  }

  lemma ThreeAreEncoded(t: Text) returns (c: Scalar)
    requires CharLength(t) == 3
    ensures t[..3] == EncodeScalar(c)
  {
    var high := Extended(t[0] - 0xE0, t[1] - 0x80);
    c := Extended(high, t[2] - 0x80);
  }

  lemma FourAreEncoded(t: Text) returns (c: Scalar)
    requires CharLength(t) == 4
    ensures t[..4] == EncodeScalar(c)
  {
    var high := Extended(t[0] - 0xF0, t[1] - 0x80);
    var middle := Extended(high, t[2] - 0x80);
    c := Extended(middle, t[3] - 0x80);
  }

  /** Whatever is taken is a character. */
  lemma TakenIsEncoded(t: Text) returns (c: Scalar)
    requires CharLength(t) > 0
    ensures t[..CharLength(t)] == EncodeScalar(c)
  {
    if t[0] < 0x80 {
      c := t[0];
    } else if CharLength(t) == 2 {
      c := TwoAreEncoded(t);
    } else if CharLength(t) == 3 {
      c := ThreeAreEncoded(t);
    } else {
      c := FourAreEncoded(t);
    }
  }

  lemma {:induction false} EncodedIsValid(cs: seq<Scalar>)
    ensures ValidUtf8(EncodeText(cs))
  {
    if cs != [] {
      var first, rest := EncodeScalar(cs[0]), EncodeText(cs[1..]);
      EncodedIsTaken(cs[0], rest);
      EncodedIsValid(cs[1..]);
      assert (first + rest)[|first|..] == rest;
    }
  }

  lemma {:induction false} ValidIsEncoded(t: Text) returns (cs: seq<Scalar>)
    requires ValidUtf8(t)
    ensures t == EncodeText(cs)
    decreases |t|
  {
    if t == [] {
      cs := [];
    } else {
      var c := TakenIsEncoded(t);
      var rest := ValidIsEncoded(t[CharLength(t)..]);
      cs := [c] + rest;
      assert cs[1..] == rest;
      assert t == t[..CharLength(t)] + t[CharLength(t)..];
    }
  }

  ghost predicate IsText(t: Text) {
    exists cs: seq<Scalar> :: EncodeText(cs) == t
  }

  /** Valid UTF-8 is exactly what encodes some characters. */
  lemma ValidIff(t: Text)
    ensures ValidUtf8(t) <==> IsText(t)
  {
    if ValidUtf8(t) {
      var cs := ValidIsEncoded(t);
    }
    if IsText(t) {
      var cs: seq<Scalar> :| EncodeText(cs) == t;
      EncodedIsValid(cs);
    }
  }

  // ----- blanks -----

  /** Unicode's `White_Space`. */
  predicate IsWhiteSpace(c: Scalar) {
    || 0x9 <= c <= 0xD || c == 0x20 || c == 0x85 || c == 0xA0 || c == 0x1680 || 0x2000 <= c <= 0x200A
    || c == 0x2028 || c == 0x2029 || c == 0x202F || c == 0x205F || c == 0x3000
  }

  lemma WhiteSpaceIsTaken(c: Scalar, rest: Text)
    ensures WhiteSpaceLength(EncodeScalar(c) + rest) == if IsWhiteSpace(c) then |EncodeScalar(c)| else 0
  {
    var t := EncodeScalar(c) + rest;
    assert c == 0x40 * (c / 0x40) + c % 0x40;
    assert c / 0x40 == 0x40 * (c / 0x1000) + c / 0x40 % 0x40;
  }

  /** A text is blank exactly if every character of it is white space. */
  lemma {:induction false} BlankIff(cs: seq<Scalar>)
    ensures IsBlank(EncodeText(cs)) <==> forall k :: 0 <= k < |cs| ==> IsWhiteSpace(cs[k])
  {
    if cs != [] {
      var first, rest := EncodeScalar(cs[0]), EncodeText(cs[1..]);
      WhiteSpaceIsTaken(cs[0], rest);
      BlankIff(cs[1..]);
      assert (first + rest)[|first|..] == rest;
      assert forall k :: 1 <= k < |cs| ==> cs[k] == cs[1..][k - 1];
    }
  }
}
