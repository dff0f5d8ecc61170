/**
 The registry's text image (crates/resonance-agent/src/identity.rs): what `persist` prints and what
 the loader makes of any file. Everything is UTF-8 bytes.
 */
module RegistryText {
  import opened Base
  import opened Identity
  import opened Texts

  const BAR: u8 := 0x7C
  const PERCENT: u8 := 0x25
  const NEWLINE: u8 := 0x0A
  const RETURN: u8 := 0x0D
  const FIRST_PLAIN: u8 := 0x20
  const LAST_PLAIN: u8 := 0x7E

  // ----- UTF-8 -----

  predicate IsContinuation(b: u8) {
    0x80 <= b <= 0xBF
  }

  /** Length of the well-formed UTF-8 sequence at the front, or 0. */
  function CharLength(t: Text): (n: nat)
    ensures n <= |t|
  {
    if t == [] then 0
    else if t[0] < 0x80 then 1
    else if 0xC2 <= t[0] <= 0xDF && |t| >= 2 && IsContinuation(t[1]) then 2
    else if 0xE0 <= t[0] <= 0xEF && |t| >= 3 && IsContinuation(t[1]) && IsContinuation(t[2])
            && (t[0] == 0xE0 ==> t[1] >= 0xA0) && (t[0] == 0xED ==> t[1] <= 0x9F) then 3
    else if 0xF0 <= t[0] <= 0xF4 && |t| >= 4 && IsContinuation(t[1]) && IsContinuation(t[2]) && IsContinuation(t[3])
            && (t[0] == 0xF0 ==> t[1] >= 0x90) && (t[0] == 0xF4 ==> t[1] <= 0x8F) then 4
    else 0
  }

  predicate ValidUtf8(t: Text)
    decreases |t|
  {
    t == [] || (CharLength(t) > 0 && ValidUtf8(t[CharLength(t)..]))
  }

  // ----- escaped fields -----

  predicate IsPlainByte(b: u8) {
    FIRST_PLAIN <= b <= LAST_PLAIN && b != BAR
  }

  predicate IsPlain(t: Text) {
    forall k :: 0 <= k < |t| ==> IsPlainByte(t[k])
  }

  function HexDigit(n: nat): u8
    requires n < 16
  {
    if n < 10 then ZERO + n else 0x41 + n - 10
  }

  function HexValue(b: u8): Option<nat> {
    if IsDigit(b) then Some(b - ZERO)
    else if 0x41 <= b <= 0x46 then Some(b - 0x41 + 10)
    else if 0x61 <= b <= 0x66 then Some(b - 0x61 + 10)
    else None
  }

  function EscapeByte(b: u8): (t: Text)
    ensures IsPlain(t)
  {
    if IsPlainByte(b) && b != PERCENT then [b] else [PERCENT, HexDigit(b / 16), HexDigit(b % 16)]
  }

  function Escape(t: Text): (escaped: Text)
    ensures IsPlain(escaped)
  {
    if t == [] then [] else Escape(t[..|t| - 1]) + EscapeByte(t[|t| - 1])
  }

  /** Two characters read in base sixteen; a leading plus is allowed, as everywhere in Rust. */
  function HexByte(high: u8, low: u8): Option<u8> {
    match HexValue(low)
    case None => None
    case Some(l) =>
      if high == PLUS then Some(l)
      else
        match HexValue(high)
        case None => None
        case Some(h) => Some(16 * h + l)
  }

  function UnescapeBytes(t: Text): Option<Text>
    decreases |t|
  {
    if t == [] then Some([])
    else if t[0] != PERCENT then Prepend([t[0]], UnescapeBytes(t[1..]))
    else if |t| < 3 || HexByte(t[1], t[2]).None? then None
    else Prepend([HexByte(t[1], t[2]).value], UnescapeBytes(t[3..]))
  }

  function Prepend(head: Text, tail: Option<Text>): Option<Text> {
    match tail
    case None => None
    case Some(t) => Some(head + t)
  }

  function Unescape(t: Text): Option<Text> {
    match UnescapeBytes(t)
    case None => None
    case Some(bytes) => if ValidUtf8(bytes) then Some(bytes) else None
  }

  lemma EscapedByteReadsBack(b: u8, tail: Text)
    ensures UnescapeBytes(EscapeByte(b) + tail) == Prepend([b], UnescapeBytes(tail))
  {
    var t := EscapeByte(b) + tail;
    if IsPlainByte(b) && b != PERCENT {
      assert t[1..] == tail;
    } else {
      assert t[3..] == tail;
      assert 16 * (b / 16) + b % 16 == b;
    }
  }

  lemma {:induction false} EscapeReadsBack(t: Text, tail: Text)
    ensures UnescapeBytes(Escape(t) + tail) == Prepend(t, UnescapeBytes(tail))
  {
    if t == [] {
      assert Escape(t) + tail == tail;
      assert Prepend(t, UnescapeBytes(tail)) == UnescapeBytes(tail) by {
        assert UnescapeBytes(tail).Some? ==> t + UnescapeBytes(tail).value == UnescapeBytes(tail).value;
      }
    } else {
      var before, b := t[..|t| - 1], t[|t| - 1];
      EscapeReadsBack(before, EscapeByte(b) + tail);
      EscapedByteReadsBack(b, tail);
      Associative(Escape(before), EscapeByte(b), tail);
      PrependTwice(before, [b], UnescapeBytes(tail));
      assert before + [b] == t;
    }
  }

  lemma PrependTwice(a: Text, b: Text, tail: Option<Text>)
    ensures Prepend(a, Prepend(b, tail)) == Prepend(a + b, tail)
  {
    if tail.Some? {
      Associative(a, b, tail.value);
    }
  }

  /** Every UTF-8 field reads back as it was written. */
  lemma UnescapeEscape(t: Text)
    requires ValidUtf8(t)
    ensures Unescape(Escape(t)) == Some(t)
  {
    EscapeReadsBack(t, []);
    assert Escape(t) + [] == Escape(t) && t + [] == t;
  }

  // ----- lines and parts -----

  function StripReturn(line: Text): Text {
    if line != [] && line[|line| - 1] == RETURN then line[..|line| - 1] else line
  }

  function Lines(body: Text): seq<Text>
    decreases |body|
  {
    if body == [] then []
    else
      match SplitOnce(body, NEWLINE)
      case None => [body]
      case Some((line, rest)) =>
        SplitShrinks(body, NEWLINE);
        [StripReturn(line)] + Lines(rest)
  }

  lemma {:induction false} SplitShrinks(t: Text, separator: u8)
    ensures SplitOnce(t, separator).Some? ==> |SplitOnce(t, separator).value.1| < |t|
  {
    if t != [] && t[0] != separator {
      SplitShrinks(t[1..], separator);
    }
  }

  function WithoutBlanks(lines: seq<Text>): seq<Text> {
    if lines == [] then []
    else if IsBlank(lines[0]) then WithoutBlanks(lines[1..])
    else [lines[0]] + WithoutBlanks(lines[1..])
  }

  function Parts(t: Text): (parts: seq<Text>)
    ensures parts != []
    decreases |t|
  {
    match SplitOnce(t, BAR)
    case None => [t]
    case Some((head, tail)) =>
      SplitShrinks(t, BAR);
      [head] + Parts(tail)
  }

  function Joined(parts: seq<Text>): Text
    requires parts != []
  {
    if |parts| == 1 then parts[0] else parts[0] + [BAR] + Joined(parts[1..])
  }

  predicate AllPlain(parts: seq<Text>) {
    forall k :: 0 <= k < |parts| ==> IsPlain(parts[k])
  }

  lemma {:induction false} NothingToSplit(t: Text, separator: u8)
    requires separator !in t
    ensures SplitOnce(t, separator) == None
  {
    if t != [] {
      NothingToSplit(t[1..], separator);
    }
  }

  lemma {:induction false} PartsOfJoined(parts: seq<Text>)
    requires parts != [] && AllPlain(parts)
    ensures Parts(Joined(parts)) == parts
  {
    assert BAR !in parts[0];
    if |parts| == 1 {
      NothingToSplit(parts[0], BAR);
    } else {
      assert AllPlain(parts[1..]);
      PartsOfJoined(parts[1..]);
      SplitOnceAt(parts[0], BAR, Joined(parts[1..]));
    }
  }

  /** A line of printable ASCII that starts with a letter. */
  predicate IsLine(t: Text) {
    t != [] && 0x61 <= t[0] <= 0x7A && forall k :: 0 <= k < |t| ==> FIRST_PLAIN <= t[k] <= LAST_PLAIN
  }

  predicate AreLines(lines: seq<Text>) {
    forall k :: 0 <= k < |lines| ==> IsLine(lines[k])
  }

  function Body(lines: seq<Text>): Text {
    if lines == [] then [] else lines[0] + [NEWLINE] + Body(lines[1..])
  }

  lemma {:induction false} LinesOfBody(lines: seq<Text>)
    requires AreLines(lines)
    ensures WithoutBlanks(Lines(Body(lines))) == lines
  {
    if lines != [] {
      assert IsLine(lines[0]) && NEWLINE !in lines[0];
      SplitOnceAt(lines[0], NEWLINE, Body(lines[1..]));
      LinesOfBody(lines[1..]);
      var all := Lines(Body(lines));
      assert all == [lines[0]] + Lines(Body(lines[1..]));
      assert all[1..] == Lines(Body(lines[1..]));
    }
  }

  lemma {:induction false} BodyIsUtf8(lines: seq<Text>)
    requires AreLines(lines)
    ensures ValidUtf8(Body(lines))
  {
    assert forall k :: 0 <= k < |Body(lines)| ==> Body(lines)[k] < 0x80 by {
      BodyIsAscii(lines);
    }
    AsciiIsUtf8(Body(lines));
  }

  lemma {:induction false} BodyIsAscii(lines: seq<Text>)
    requires AreLines(lines)
    ensures forall k :: 0 <= k < |Body(lines)| ==> Body(lines)[k] < 0x80
  {
    if lines != [] {
      assert IsLine(lines[0]);
      BodyIsAscii(lines[1..]);
    }
  }

  lemma {:induction false} AsciiIsUtf8(t: Text)
    requires forall k :: 0 <= k < |t| ==> t[k] < 0x80
    ensures ValidUtf8(t)
  {
    if t != [] {
      AsciiIsUtf8(t[1..]);
    }
  }

  // ----- the header -----

  const VERSION: Text := [0x76, 0x65, 0x72, 0x73, 0x69, 0x6F, 0x6E]
  const EVIDENCE: Text := [0x65, 0x76, 0x69, 0x64, 0x65, 0x6E, 0x63, 0x65]
  const NAMESPACE: Text := [0x6E, 0x61, 0x6D, 0x65, 0x73, 0x70, 0x61, 0x63, 0x65]
  const REVISION: Text := [0x72, 0x65, 0x76, 0x69, 0x73, 0x69, 0x6F, 0x6E]
  const NEXT_SEQUENCE: Text := [0x6E, 0x65, 0x78, 0x74, 0x5F, 0x73, 0x65, 0x71, 0x75, 0x65, 0x6E, 0x63, 0x65]
  const ENTRIES: Text := [0x65, 0x6E, 0x74, 0x72, 0x69, 0x65, 0x73]
  const SOURCE: Text := [0x73, 0x6F, 0x75, 0x72, 0x63, 0x65]

  const CURRENT_SCHEMA: nat := 1

  datatype Header = Header(schema: nat, evidenceSchema: nat, namespace: Text, revision: u64, nextSequence: u64)

  const NO_HEADER := Header(0, 0, [], 0, 0)

  function ReadKey(h: Header, key: Text, value: Text): Option<Header> {
    if key == NAMESPACE then
      match Unescape(value)
      case None => None
      case Some(text) => Some(h.(namespace := text))
    else
      match ParseNat(value, if key == VERSION || key == EVIDENCE then U32_MAX else U64_MAX)
      case None => None
      case Some(n) =>
        if key == VERSION then Some(h.(schema := n))
        else if key == EVIDENCE then Some(h.(evidenceSchema := n))
        else if key == REVISION then Some(h.(revision := n))
        else if key == NEXT_SEQUENCE then Some(h.(nextSequence := n))
        else None
  }

  datatype HeaderRead = HeaderRead(header: Header, count: nat, rest: seq<Text>)

  /** Keys in any order, none twice, up to the number of entries. */
  function ReadHeader(lines: seq<Text>, seen: set<Text>, h: Header): Option<HeaderRead>
    decreases |lines|
  {
    if lines == [] || SplitOnce(lines[0], BAR).None? then None
    else
      var (key, value) := SplitOnce(lines[0], BAR).value;
      if key in seen then None
      else if key == ENTRIES then
        match ParseNat(value, U64_MAX)
        case None => None
        case Some(count) => Some(HeaderRead(h, count, lines[1..]))
      else
        match ReadKey(h, key, value)
        case None => None
        case Some(next) => ReadHeader(lines[1..], seen + {key}, next)
  }

  // ----- entries -----

  datatype PersistedState = PersistedLive | PersistedAbsent | PersistedRetired

  datatype PersistedSource = PersistedSource(
    id: Text, evidence: Evidence, displayName: Text, state: PersistedState, reason: Option<RetiredReason>)

  const LIVE: Text := [0x6C, 0x69, 0x76, 0x65]
  const ABSENT: Text := [0x61, 0x62, 0x73, 0x65, 0x6E, 0x74]
  const RETIRED: Text := [0x72, 0x65, 0x74, 0x69, 0x72, 0x65, 0x64]

  function StateToken(state: PersistedState): Text {
    match state
    case PersistedLive => LIVE
    case PersistedAbsent => ABSENT
    case PersistedRetired => RETIRED
  }

  function TokenToState(t: Text): Option<PersistedState> {
    if t == LIVE then Some(PersistedLive)
    else if t == ABSENT then Some(PersistedAbsent)
    else if t == RETIRED then Some(PersistedRetired)
    else None
  }

  const NATIVE_KEY_REUSE: Text :=
    [0x6E, 0x61, 0x74, 0x69, 0x76, 0x65, 0x5F, 0x6B, 0x65, 0x79, 0x5F, 0x72, 0x65, 0x75, 0x73, 0x65]
  const AMBIGUOUS_RETURN: Text :=
    [0x61, 0x6D, 0x62, 0x69, 0x67, 0x75, 0x6F, 0x75, 0x73, 0x5F, 0x72, 0x65, 0x74, 0x75, 0x72, 0x6E]
  const MIGRATION_CORRUPTION: Text :=
    [0x6D, 0x69, 0x67, 0x72, 0x61, 0x74, 0x69, 0x6F, 0x6E, 0x5F, 0x63, 0x6F, 0x72, 0x72, 0x75, 0x70, 0x74, 0x69, 0x6F, 0x6E]
  const NAMESPACE_RESET: Text :=
    [0x6E, 0x61, 0x6D, 0x65, 0x73, 0x70, 0x61, 0x63, 0x65, 0x5F, 0x72, 0x65, 0x73, 0x65, 0x74]

  function ReasonToken(reason: RetiredReason): (t: Text)
    ensures t != []
  {
    match reason
    case NativeKeyReuse => NATIVE_KEY_REUSE
    case AmbiguousReturn => AMBIGUOUS_RETURN
    case MigrationCorruption => MIGRATION_CORRUPTION
    case NamespaceReset => NAMESPACE_RESET
  }

  function TokenToReason(t: Text): Option<RetiredReason> {
    if t == NATIVE_KEY_REUSE then Some(NativeKeyReuse)
    else if t == AMBIGUOUS_RETURN then Some(AmbiguousReturn)
    else if t == MIGRATION_CORRUPTION then Some(MigrationCorruption)
    else if t == NAMESPACE_RESET then Some(NamespaceReset)
    else None
  }

  /** The reason of a retired entry; an unknown token reads as no reason. */
  function ReadReason(state: PersistedState, field: Text): Option<Option<RetiredReason>> {
    if state != PersistedRetired || field == [] then Some(None)
    else
      match Unescape(field)
      case None => None
      case Some(token) => Some(TokenToReason(token))
  }

  function ReadEntry(line: Text): Option<PersistedSource> {
    var parts := Parts(line);
    if |parts| != 7 || parts[0] != SOURCE then None
    else
      match (TokenToState(parts[1]), Unescape(parts[2]), Unescape(parts[3]), Unescape(parts[4]), Unescape(parts[5]))
      case (Some(state), Some(id), Some(backendKey), Some(token), Some(displayName)) =>
        (match ReadReason(state, parts[6])
         case None => None
         case Some(reason) => Some(PersistedSource(id, Evidence(backendKey, token), displayName, state, reason)))
      case (_, _, _, _, _) => None
  }

  function ReadEntries(lines: seq<Text>): Option<seq<PersistedSource>> {
    if lines == [] then Some([])
    else
      match (ReadEntries(lines[..|lines| - 1]), ReadEntry(lines[|lines| - 1]))
      case (Some(before), Some(entry)) => Some(before + [entry])
      case (_, _) => None
  }

  // ----- a whole file -----

  datatype Image = Image(header: Header, entries: seq<PersistedSource>)

  function ReadImage(body: Text): Option<Image> {
    if !ValidUtf8(body) then None
    else
      match ReadHeader(WithoutBlanks(Lines(body)), {}, NO_HEADER)
      case None => None
      case Some(read) =>
        match ReadEntries(read.rest)
        case None => None
        case Some(entries) =>
          if |entries| != read.count || read.header.namespace == [] then None else Some(Image(read.header, entries))
  }

  // ----- printing -----

  function PersistedOf(state: SourceState): PersistedState {
    match state
    case Live => PersistedLive
    case Absent => PersistedAbsent
    case Retired(_) => PersistedRetired
  }

  function ReasonOf(state: SourceState): Option<RetiredReason> {
    if state.Retired? then Some(state.reason) else None
  }

  function Persisted(id: Text, r: SourceRecord): PersistedSource {
    PersistedSource(id, r.evidence, r.displayName, PersistedOf(r.state), ReasonOf(r.state))
  }

  function ReasonField(state: SourceState): Text {
    if state.Retired? then ReasonToken(state.reason) else []
  }

  function EntryParts(id: Text, r: SourceRecord): seq<Text> {
    [SOURCE, StateToken(PersistedOf(r.state)), Escape(id), Escape(r.evidence.backendKey), Escape(r.evidence.token),
     Escape(r.displayName), ReasonField(r.state)]
  }

  function Keyed(key: Text, value: Text): Text {
    key + [BAR] + value
  }

  function FirstLines(s: Registry, rest: seq<Text>): seq<Text> {
    [Keyed(VERSION, PrintNat(CURRENT_SCHEMA))]
    + ([Keyed(EVIDENCE, PrintNat(CURRENT_SCHEMA))] + ([Keyed(NAMESPACE, Escape(s.namespace))] + rest))
  }

  function LastLines(s: Registry, count: nat, rest: seq<Text>): seq<Text> {
    [Keyed(REVISION, PrintNat(s.revision))]
    + ([Keyed(NEXT_SEQUENCE, PrintNat(s.nextSequence))] + ([Keyed(ENTRIES, PrintNat(count))] + rest))
  }

  ghost predicate Enumerates(order: seq<Text>, entries: Entries) {
    && (forall id :: id in order <==> id in entries)
    && forall i, j :: 0 <= i < j < |order| ==> order[i] != order[j]
  }

  function EntryLines(entries: Entries, order: seq<Text>): seq<Text>
    requires forall id :: id in order ==> id in entries
  {
    if order == [] then []
    else EntryLines(entries, order[..|order| - 1]) + [Joined(EntryParts(order[|order| - 1], entries[order[|order| - 1]]))]
  }

  /** The image of a registry, its entries in any order (the source's map is sorted by id). */
  function PrintRegistry(s: Registry, order: seq<Text>): Text
    requires forall id :: id in order ==> id in s.entries
  {
    Body(FirstLines(s, LastLines(s, |s.entries|, EntryLines(s.entries, order))))
  }
}
