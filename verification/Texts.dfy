/** Strings as the UTF-8 bytes they are stored in: blanks, decimals, and splitting at a separator. */
module Texts {
  import opened Base

  type Text = seq<u8>

  const MINUS: u8 := 0x2D
  const PLUS: u8 := 0x2B
  const ZERO: u8 := 0x30

  // ----- decimal numbers -----

  predicate IsDigit(b: u8) {
    ZERO <= b <= ZERO + 9
  }

  predicate AllDigits(t: Text) {
    forall k :: 0 <= k < |t| ==> IsDigit(t[k])
  }

  /** Decimal display of an unsigned number. */
  function PrintNat(n: nat): (t: Text)
    ensures t != [] && AllDigits(t)
  {
    if n < 10 then [ZERO + n] else PrintNat(n / 10) + [ZERO + n % 10]
  }

  function DigitsValue(t: Text): nat
    requires AllDigits(t)
  {
    if t == [] then 0 else 10 * DigitsValue(t[..|t| - 1]) + (t[|t| - 1] - ZERO)
  }

  /** Rust's `parse` of an unsigned integer type: one leading plus is allowed, blanks are not. */
  function ParseNat(t: Text, max: nat): (r: Option<nat>)
    ensures r.Some? ==> r.value <= max
  {
    var digits := if t != [] && t[0] == PLUS then t[1..] else t;
    if digits == [] || !AllDigits(digits) || DigitsValue(digits) > max then None else Some(DigitsValue(digits))
  }

  lemma {:induction false} ValueOfPrint(n: nat)
    ensures DigitsValue(PrintNat(n)) == n
  {
    if n >= 10 {
      ValueOfPrint(n / 10);
      assert PrintNat(n)[..|PrintNat(n)| - 1] == PrintNat(n / 10);
    } else {
      assert DigitsValue([]) == 0;
    }
  }

  /** Parsing undoes printing, within the width of the type. */
  lemma ParsePrint(n: nat, max: nat)
    ensures ParseNat(PrintNat(n), max) == if n <= max then Some(n) else None
  {
    ValueOfPrint(n);
    assert IsDigit(PrintNat(n)[0]);
  }

  lemma PrintIsInjective(m: nat, n: nat)
    requires PrintNat(m) == PrintNat(n)
    ensures m == n
  {
    ValueOfPrint(m);
    ValueOfPrint(n);
  }

  // ----- separators -----

  /** What follows the last separator. */
  function AfterLast(t: Text, separator: u8): Option<Text> {
    if t == [] then None
    else if t[|t| - 1] == separator then Some([])
    else
      match AfterLast(t[..|t| - 1], separator)
      case None => None
      case Some(tail) => Some(tail + [t[|t| - 1]])
  }

  lemma {:induction false} AfterLastIsTail(head: Text, separator: u8, tail: Text)
    requires separator !in tail
    ensures AfterLast(head + [separator] + tail, separator) == Some(tail)
  {
    var t := head + [separator] + tail;
    if tail == [] {
      assert t[|t| - 1] == separator;
    } else {
      var shorter := tail[..|tail| - 1];
      AfterLastIsTail(head, separator, shorter);
      assert t[..|t| - 1] == head + [separator] + shorter;
      assert tail == shorter + [tail[|tail| - 1]];
    }
  }

  /** What precedes the first separator, and what follows it. */
  function SplitOnce(t: Text, separator: u8): Option<(Text, Text)> {
    if t == [] then None
    else if t[0] == separator then Some(([], t[1..]))
    else
      match SplitOnce(t[1..], separator)
      case None => None
      case Some((head, tail)) => Some(([t[0]] + head, tail))
  }

  lemma {:induction false} SplitOnceAt(head: Text, separator: u8, tail: Text)
    requires separator !in head
    ensures SplitOnce(head + [separator] + tail, separator) == Some((head, tail))
  {
    var t := head + [separator] + tail;
    if head == [] {
      assert t[1..] == tail;
    } else {
      SplitOnceAt(head[1..], separator, tail);
      assert t[1..] == head[1..] + [separator] + tail;
      assert head == [head[0]] + head[1..];
    }
  }

  // ----- identifiers -----

  /** `id-{namespace}-{sequence}` */
  function SourceIdText(namespace: Text, sequence: nat): Text {
    [0x69, 0x64, MINUS] + namespace + [MINUS] + PrintNat(sequence)
  }

  function ParseSequence(id: Text): Option<nat> {
    match AfterLast(id, MINUS)
    case None => None
    case Some(tail) => ParseNat(tail, U64_MAX)
  }

  /** The sequence number of an allocated identifier reads back, whatever the namespace. */
  lemma SequenceReadsBack(namespace: Text, sequence: u64)
    ensures ParseSequence(SourceIdText(namespace, sequence)) == Some(sequence)
  {
    var digits := PrintNat(sequence);
    AfterLastIsTail([0x69, 0x64, MINUS] + namespace, MINUS, digits);
    ParsePrint(sequence, U64_MAX);
  }

  // ----- blanks -----

  /** How many bytes of one Unicode white-space character stand at the front, or 0. */
  function WhiteSpaceLength(t: Text): (n: nat)
    ensures n <= |t|
  {
    if t == [] then 0
    else if 9 <= t[0] <= 13 || t[0] == 0x20 then 1
    else if |t| >= 2 && t[0] == 0xC2 && (t[1] == 0x85 || t[1] == 0xA0) then 2
    else if |t| >= 3 && t[0] == 0xE1 && t[1] == 0x9A && t[2] == 0x80 then 3
    else if |t| >= 3 && t[0] == 0xE2 && t[1] == 0x80
            && (0x80 <= t[2] <= 0x8A || t[2] == 0xA8 || t[2] == 0xA9 || t[2] == 0xAF) then 3
    else if |t| >= 3 && t[0] == 0xE2 && t[1] == 0x81 && t[2] == 0x9F then 3
    else if |t| >= 3 && t[0] == 0xE3 && t[1] == 0x80 && t[2] == 0x80 then 3
    else 0
  }

  /** Nothing but white space: `trim().is_empty()`. */
  predicate IsBlank(t: Text)
    decreases |t|
  {
    t == [] || (WhiteSpaceLength(t) > 0 && IsBlank(t[WhiteSpaceLength(t)..]))
  }
}
