/** Loading what was persisted: which registries come back, and which the loader turns away. */
module RegistryReload {
  import opened Base
  import opened Identity
  import opened IdentityRuns
  import opened RegistryText
  import opened Texts

  // ----- from an image to a registry -----

  datatype LoadError = CorruptRegistry | MigrationFailed | UnsupportedSchema(expected: nat, observed: nat)

  function CheckSchema(h: Header): Result<(), LoadError> {
    if h.schema == 0 || h.evidenceSchema == 0 then Err(MigrationFailed)
    else if h.schema > CURRENT_SCHEMA then Err(UnsupportedSchema(CURRENT_SCHEMA, h.schema))
    else if h.evidenceSchema > CURRENT_SCHEMA then Err(UnsupportedSchema(CURRENT_SCHEMA, h.evidenceSchema))
    else Ok(())
  }

  function RestoredState(p: PersistedSource): Option<SourceState> {
    match p.state
    case PersistedLive => Some(Live)
    case PersistedAbsent => Some(Absent)
    case PersistedRetired =>
      match p.reason
      case None => None
      case Some(reason) => Some(Retired(reason))
  }

  /** The entries restored so far and the evidence they stand for. */
  datatype Restored = Restored(entries: Entries, index: set<Evidence>)

  function RestoreOne(r: Restored, p: PersistedSource): Option<Restored> {
    if IsBlank(p.id) || p.id in r.entries || p.evidence.backendKey == [] || p.evidence.token == []
       || p.evidence in r.index || RestoredState(p).None? then None
    else
      Some(Restored(r.entries[p.id := SourceRecord(p.evidence, p.displayName, RestoredState(p).value)],
                    r.index + {p.evidence}))
  }

  function Restore(list: seq<PersistedSource>): Option<Restored> {
    if list == [] then Some(Restored(map[], {}))
    else
      match Restore(list[..|list| - 1])
      case None => None
      case Some(before) => RestoreOne(before, list[|list| - 1])
  }

  /** The counter is raised to the largest number any id carries. */
  function CounterFor(list: seq<PersistedSource>, start: u64): u64 {
    if list == [] then start
    else
      var before := CounterFor(list[..|list| - 1], start);
      match ParseSequence(list[|list| - 1].id)
      case Some(n) => if n > before then n else before
      case None => before
  }

  function FromImage(image: Image): Result<Registry, LoadError> {
    var _ :- CheckSchema(image.header);
    match Restore(image.entries)
    case None => Err(CorruptRegistry)
    case Some(restored) =>
      Ok(Registry(image.header.namespace, image.header.revision, CounterFor(image.entries, image.header.nextSequence),
                  restored.entries))
  }

  // ----- reading back what was printed -----

  predicate AllUtf8(id: Text, r: SourceRecord) {
    ValidUtf8(id) && ValidUtf8(r.evidence.backendKey) && ValidUtf8(r.evidence.token) && ValidUtf8(r.displayName)
  }

  /** What the types of the source guarantee: strings are UTF-8, counts fit, an id is not blank, a namespace has a name. */
  ghost predicate Printable(s: Registry) {
    && s.namespace != [] && ValidUtf8(s.namespace) && |s.entries| <= U64_MAX
    && forall id :: id in s.entries ==> AllUtf8(id, s.entries[id]) && !IsBlank(id)
  }

  /** Every token of the format is plain text that reads back as itself. */
  predicate IsToken(t: Text) {
    IsPlain(t) && PERCENT !in t
  }

  lemma ReasonTokens()
    ensures IsToken(NATIVE_KEY_REUSE) && IsToken(AMBIGUOUS_RETURN)
    ensures IsToken(MIGRATION_CORRUPTION) && IsToken(NAMESPACE_RESET)
  {
  }

  lemma ReasonsDiffer(reason: RetiredReason)
    ensures TokenToReason(ReasonToken(reason)) == Some(reason)
  {
    match reason
    case NativeKeyReuse =>
    case AmbiguousReturn => assert AMBIGUOUS_RETURN[0] != NATIVE_KEY_REUSE[0];
    case MigrationCorruption =>
      assert MIGRATION_CORRUPTION[0] != NATIVE_KEY_REUSE[0] && MIGRATION_CORRUPTION[0] != AMBIGUOUS_RETURN[0];
    case NamespaceReset =>
      assert NAMESPACE_RESET[2] != NATIVE_KEY_REUSE[2] && NAMESPACE_RESET[0] != AMBIGUOUS_RETURN[0];
      assert NAMESPACE_RESET[0] != MIGRATION_CORRUPTION[0];
  }

  lemma TokenReadsBack(t: Text)
    requires IsToken(t)
    ensures Unescape(t) == Some(t)
  {
    NothingToUnescape(t);
    assert forall k :: 0 <= k < |t| ==> IsPlainByte(t[k]);
    AsciiIsUtf8(t);
  }

  lemma ReasonReadsBack(reason: RetiredReason)
    ensures IsPlain(ReasonToken(reason))
    ensures ReadReason(PersistedRetired, ReasonToken(reason)) == Some(Some(reason))
  {
    ReasonTokens();
    TokenReadsBack(ReasonToken(reason));
    ReasonsDiffer(reason);
  }

  lemma StateReadsBack(state: PersistedState)
    ensures IsPlain(StateToken(state)) && TokenToState(StateToken(state)) == Some(state)
  {
    assert ABSENT[0] != LIVE[0] && RETIRED[0] != LIVE[0] && RETIRED[0] != ABSENT[0];
  }

  lemma TokensReadBack(s: SourceState)
    ensures IsPlain(StateToken(PersistedOf(s))) && IsPlain(ReasonField(s))
    ensures TokenToState(StateToken(PersistedOf(s))) == Some(PersistedOf(s))
    ensures ReadReason(PersistedOf(s), ReasonField(s)) == Some(ReasonOf(s))
  {
    StateReadsBack(PersistedOf(s));
    if s.Retired? {
      ReasonReadsBack(s.reason);
    }
  }

  lemma SourceIsPlain()
    ensures IsPlain(SOURCE) && SOURCE != [] && 0x61 <= SOURCE[0] <= 0x7A
  {
  }

  lemma {:induction false} NothingToUnescape(t: Text)
    requires PERCENT !in t
    ensures UnescapeBytes(t) == Some(t)
  {
    if t != [] {
      NothingToUnescape(t[1..]);
      assert t == [t[0]] + t[1..];
    }
  }

  lemma EntryReadsBack(id: Text, r: SourceRecord)
    requires AllUtf8(id, r)
    ensures ReadEntry(Joined(EntryParts(id, r))) == Some(Persisted(id, r))
  {
    SourceIsPlain();
    TokensReadBack(r.state);
    PartsOfJoined(EntryParts(id, r));
    UnescapeEscape(id);
    UnescapeEscape(r.evidence.backendKey);
    UnescapeEscape(r.evidence.token);
    UnescapeEscape(r.displayName);
  }

  function PersistedEntries(entries: Entries, order: seq<Text>): seq<PersistedSource>
    requires forall id :: id in order ==> id in entries
  {
    if order == [] then []
    else PersistedEntries(entries, order[..|order| - 1]) + [Persisted(order[|order| - 1], entries[order[|order| - 1]])]
  }

  lemma {:induction false} EntriesReadBack(entries: Entries, order: seq<Text>)
    requires forall id :: id in order ==> id in entries && AllUtf8(id, entries[id])
    ensures ReadEntries(EntryLines(entries, order)) == Some(PersistedEntries(entries, order))
    ensures |PersistedEntries(entries, order)| == |order|
  {
    if order != [] {
      var before, id := order[..|order| - 1], order[|order| - 1];
      var lines := EntryLines(entries, order);
      EntriesReadBack(entries, before);
      EntryReadsBack(id, entries[id]);
      assert lines[..|lines| - 1] == EntryLines(entries, before);
    }
  }

  lemma KeysDiffer()
    ensures VERSION != ENTRIES && EVIDENCE != ENTRIES && NAMESPACE != ENTRIES && REVISION != ENTRIES
    ensures NEXT_SEQUENCE != ENTRIES
    ensures VERSION != EVIDENCE && VERSION != NAMESPACE && VERSION != REVISION && VERSION != NEXT_SEQUENCE
    ensures EVIDENCE != NAMESPACE && EVIDENCE != REVISION && EVIDENCE != NEXT_SEQUENCE
    ensures NAMESPACE != REVISION && NAMESPACE != NEXT_SEQUENCE && REVISION != NEXT_SEQUENCE
  {
    assert VERSION[0] != ENTRIES[0] && EVIDENCE[0] != REVISION[0];
  }

  lemma KeysArePlain()
    ensures IsPlain(VERSION) && IsPlain(EVIDENCE) && IsPlain(NAMESPACE) && IsPlain(REVISION)
    ensures IsPlain(NEXT_SEQUENCE) && IsPlain(ENTRIES)
  {
  }

  lemma HeaderStep(key: Text, value: Text, rest: seq<Text>, seen: set<Text>, h: Header)
    requires IsPlain(key) && key != ENTRIES && key !in seen && ReadKey(h, key, value).Some?
    ensures ReadHeader([Keyed(key, value)] + rest, seen, h)
         == ReadHeader(rest, seen + {key}, ReadKey(h, key, value).value)
  {
    SplitOnceAt(key, BAR, value);
    assert ([Keyed(key, value)] + rest)[1..] == rest;
  }

  function HeaderOf(s: Registry): Header {
    Header(CURRENT_SCHEMA, CURRENT_SCHEMA, s.namespace, s.revision, s.nextSequence)
  }

  const FIRST_KEYS: set<Text> := {} + {VERSION} + {EVIDENCE} + {NAMESPACE}

  lemma FirstKeysReadBack(s: Registry, rest: seq<Text>)
    requires ValidUtf8(s.namespace)
    ensures ReadHeader(FirstLines(s, rest), {}, NO_HEADER)
         == ReadHeader(rest, FIRST_KEYS, Header(CURRENT_SCHEMA, CURRENT_SCHEMA, s.namespace, 0, 0))
  {
    KeysDiffer();
    KeysArePlain();
    ParsePrint(CURRENT_SCHEMA, U32_MAX);
    UnescapeEscape(s.namespace);
    var third := [Keyed(NAMESPACE, Escape(s.namespace))] + rest;
    var second := [Keyed(EVIDENCE, PrintNat(CURRENT_SCHEMA))] + third;
    HeaderStep(VERSION, PrintNat(CURRENT_SCHEMA), second, {}, NO_HEADER);
    HeaderStep(EVIDENCE, PrintNat(CURRENT_SCHEMA), third, {} + {VERSION}, NO_HEADER.(schema := CURRENT_SCHEMA));
    HeaderStep(NAMESPACE, Escape(s.namespace), rest, {} + {VERSION} + {EVIDENCE},
               NO_HEADER.(schema := CURRENT_SCHEMA, evidenceSchema := CURRENT_SCHEMA));
  }

  lemma CountReadsBack(count: nat, rest: seq<Text>, seen: set<Text>, h: Header)
    requires count <= U64_MAX && ENTRIES !in seen
    ensures ReadHeader([Keyed(ENTRIES, PrintNat(count))] + rest, seen, h) == Some(HeaderRead(h, count, rest))
  {
    KeysArePlain();
    ParsePrint(count, U64_MAX);
    SplitOnceAt(ENTRIES, BAR, PrintNat(count));
    assert ([Keyed(ENTRIES, PrintNat(count))] + rest)[1..] == rest;
  }

  lemma RevisionReadsBack(s: Registry, rest: seq<Text>, seen: set<Text>, h: Header)
    requires REVISION !in seen
    ensures ReadHeader([Keyed(REVISION, PrintNat(s.revision))] + rest, seen, h)
         == ReadHeader(rest, seen + {REVISION}, h.(revision := s.revision))
  {
    KeysDiffer();
    KeysArePlain();
    ParsePrint(s.revision, U64_MAX);
    HeaderStep(REVISION, PrintNat(s.revision), rest, seen, h);
  }

  lemma CounterReadsBack(s: Registry, rest: seq<Text>, seen: set<Text>, h: Header)
    requires NEXT_SEQUENCE !in seen
    ensures ReadHeader([Keyed(NEXT_SEQUENCE, PrintNat(s.nextSequence))] + rest, seen, h)
         == ReadHeader(rest, seen + {NEXT_SEQUENCE}, h.(nextSequence := s.nextSequence))
  {
    KeysDiffer();
    KeysArePlain();
    ParsePrint(s.nextSequence, U64_MAX);
    HeaderStep(NEXT_SEQUENCE, PrintNat(s.nextSequence), rest, seen, h);
  }

  lemma LastKeysReadBack(s: Registry, count: nat, rest: seq<Text>, h: Header)
    requires count <= U64_MAX
    ensures ReadHeader(LastLines(s, count, rest), FIRST_KEYS, h)
         == Some(HeaderRead(h.(revision := s.revision, nextSequence := s.nextSequence), count, rest))
  {
    KeysDiffer();
    var third := [Keyed(ENTRIES, PrintNat(count))] + rest;
    var second := [Keyed(NEXT_SEQUENCE, PrintNat(s.nextSequence))] + third;
    RevisionReadsBack(s, second, FIRST_KEYS, h);
    CounterReadsBack(s, third, FIRST_KEYS + {REVISION}, h.(revision := s.revision));
    CountReadsBack(count, rest, FIRST_KEYS + {REVISION} + {NEXT_SEQUENCE},
                   h.(revision := s.revision, nextSequence := s.nextSequence));
  }

  lemma DigitsArePlain(n: nat)
    ensures IsPlain(PrintNat(n))
  {
    assert forall k :: 0 <= k < |PrintNat(n)| ==> IsDigit(PrintNat(n)[k]);
  }

  lemma KeyedIsLine(key: Text, value: Text)
    requires IsPlain(key) && IsPlain(value) && key != [] && 0x61 <= key[0] <= 0x7A
    ensures IsLine(Keyed(key, value))
  {
    var t := Keyed(key, value);
    forall k | 0 <= k < |t|
      ensures FIRST_PLAIN <= t[k] <= LAST_PLAIN
    {
      assert k < |key| ==> IsPlainByte(key[k]);
      assert k > |key| ==> IsPlainByte(value[k - |key| - 1]);
    }
  }

  lemma MoreLines(line: Text, rest: seq<Text>)
    requires IsLine(line) && AreLines(rest)
    ensures AreLines([line] + rest)
  {
  }

  lemma FirstLinesAreLines(s: Registry, rest: seq<Text>)
    requires AreLines(rest)
    ensures AreLines(FirstLines(s, rest))
  {
    KeysArePlain();
    DigitsArePlain(CURRENT_SCHEMA);
    KeyedIsLine(VERSION, PrintNat(CURRENT_SCHEMA));
    KeyedIsLine(EVIDENCE, PrintNat(CURRENT_SCHEMA));
    KeyedIsLine(NAMESPACE, Escape(s.namespace));
    var third := [Keyed(NAMESPACE, Escape(s.namespace))] + rest;
    MoreLines(Keyed(NAMESPACE, Escape(s.namespace)), rest);
    MoreLines(Keyed(EVIDENCE, PrintNat(CURRENT_SCHEMA)), third);
    MoreLines(Keyed(VERSION, PrintNat(CURRENT_SCHEMA)), [Keyed(EVIDENCE, PrintNat(CURRENT_SCHEMA))] + third);
  }

  lemma LastLinesAreLines(s: Registry, count: nat, rest: seq<Text>)
    requires AreLines(rest)
    ensures AreLines(LastLines(s, count, rest))
  {
    KeysArePlain();
    DigitsArePlain(s.revision);
    DigitsArePlain(s.nextSequence);
    DigitsArePlain(count);
    KeyedIsLine(REVISION, PrintNat(s.revision));
    KeyedIsLine(NEXT_SEQUENCE, PrintNat(s.nextSequence));
    KeyedIsLine(ENTRIES, PrintNat(count));
    var third := [Keyed(ENTRIES, PrintNat(count))] + rest;
    MoreLines(Keyed(ENTRIES, PrintNat(count)), rest);
    MoreLines(Keyed(NEXT_SEQUENCE, PrintNat(s.nextSequence)), third);
    MoreLines(Keyed(REVISION, PrintNat(s.revision)), [Keyed(NEXT_SEQUENCE, PrintNat(s.nextSequence))] + third);
  }

  lemma {:induction false} JoinedIsPrintable(parts: seq<Text>)
    requires parts != [] && AllPlain(parts)
    ensures forall k :: 0 <= k < |Joined(parts)| ==> FIRST_PLAIN <= Joined(parts)[k] <= LAST_PLAIN
    ensures parts[0] != [] ==> Joined(parts) != [] && Joined(parts)[0] == parts[0][0]
  {
    assert forall k :: 0 <= k < |parts[0]| ==> IsPlainByte(parts[0][k]);
    if |parts| > 1 {
      assert AllPlain(parts[1..]);
      JoinedIsPrintable(parts[1..]);
    }
  }

  lemma {:induction false} EntryLinesAreLines(entries: Entries, order: seq<Text>)
    requires forall id :: id in order ==> id in entries
    ensures AreLines(EntryLines(entries, order))
  {
    if order != [] {
      var id := order[|order| - 1];
      EntryLinesAreLines(entries, order[..|order| - 1]);
      SourceIsPlain();
      TokensReadBack(entries[id].state);
      JoinedIsPrintable(EntryParts(id, entries[id]));
    }
  }

  lemma {:induction false} EnumerationCounts(order: seq<Text>, keys: set<Text>)
    requires forall id :: id in order <==> id in keys
    requires forall i, j :: 0 <= i < j < |order| ==> order[i] != order[j]
    ensures |order| == |keys|
  {
    if order == [] {
      assert keys == {};
    } else {
      var before, id := order[..|order| - 1], order[|order| - 1];
      assert id in order;
      assert order == before + [id];
      EnumerationCounts(before, keys - {id});
    }
  }

  lemma LinesReadBack(lines: seq<Text>, h: Header, count: nat, rest: seq<Text>, entries: seq<PersistedSource>)
    requires AreLines(lines) && ReadHeader(lines, {}, NO_HEADER) == Some(HeaderRead(h, count, rest))
    requires ReadEntries(rest) == Some(entries) && |entries| == count && h.namespace != []
    ensures ReadImage(Body(lines)) == Some(Image(h, entries))
  {
    BodyIsUtf8(lines);
    LinesOfBody(lines);
  }

  /** The loader reads from a printed registry exactly what went in, whatever its texts contain. */
  lemma ImageReadsBack(s: Registry, order: seq<Text>)
    requires Printable(s) && Enumerates(order, s.entries)
    ensures ReadImage(PrintRegistry(s, order)) == Some(Image(HeaderOf(s), PersistedEntries(s.entries, order)))
  {
    var lines := EntryLines(s.entries, order);
    var last := LastLines(s, |s.entries|, lines);
    EnumerationCounts(order, s.entries.Keys);
    EntryLinesAreLines(s.entries, order);
    LastLinesAreLines(s, |s.entries|, lines);
    FirstLinesAreLines(s, last);
    FirstKeysReadBack(s, last);
    LastKeysReadBack(s, |s.entries|, lines, Header(CURRENT_SCHEMA, CURRENT_SCHEMA, s.namespace, 0, 0));
    EntriesReadBack(s.entries, order);
    LinesReadBack(FirstLines(s, last), HeaderOf(s), |s.entries|, lines, PersistedEntries(s.entries, order));
  }

  // ----- which registries come back -----

  predicate IsNamed(e: Evidence) {
    e.backendKey != [] && e.token != []
  }

  /** Every entry, retired or not, has evidence of its own. */
  ghost predicate Reloadable(entries: Entries) {
    && (forall id :: id in entries ==> IsNamed(entries[id].evidence))
    && forall a, b :: a in entries && b in entries ==> entries[a].evidence != entries[b].evidence || a == b
  }

  ghost predicate ReloadableOver(entries: Entries, order: seq<Text>)
    requires forall id :: id in order ==> id in entries
  {
    && (forall id :: id in order ==> IsNamed(entries[id].evidence))
    && forall i, j :: 0 <= i < j < |order| ==> entries[order[i]].evidence != entries[order[j]].evidence
  }

  function RestoredOver(entries: Entries, order: seq<Text>): Restored
    requires forall id :: id in order ==> id in entries
  {
    Restored(map id | id in order :: entries[id], set id | id in order :: entries[id].evidence)
  }

  lemma RestoringOneMore(entries: Entries, before: seq<Text>, id: Text)
    requires forall other :: other in before + [id] ==> other in entries
    requires id !in before && !IsBlank(id)
    ensures RestoreOne(RestoredOver(entries, before), Persisted(id, entries[id]))
         == if IsNamed(entries[id].evidence) && forall k :: 0 <= k < |before| ==>
                 entries[before[k]].evidence != entries[id].evidence
            then Some(RestoredOver(entries, before + [id])) else None
  {
    var r, next := RestoredOver(entries, before), RestoredOver(entries, before + [id]);
    assert RestoredState(Persisted(id, entries[id])) == Some(entries[id].state);
    assert id in before + [id];
    assert next.entries == r.entries[id := entries[id]];
    assert next.index == r.index + {entries[id].evidence} by {
      assert forall other :: other in before + [id] <==> other in before || other == id;
    }
    assert entries[id].evidence in r.index <==>
           exists k :: 0 <= k < |before| && entries[before[k]].evidence == entries[id].evidence;
  }

  lemma {:induction false} RestoreReadsBack(entries: Entries, order: seq<Text>)
    requires forall id :: id in order ==> id in entries && !IsBlank(id)
    requires forall i, j :: 0 <= i < j < |order| ==> order[i] != order[j]
    ensures Restore(PersistedEntries(entries, order))
         == if ReloadableOver(entries, order) then Some(RestoredOver(entries, order)) else None
  {
    if order == [] {
      assert RestoredOver(entries, order) == Restored(map[], {});
    } else {
      var before, id := order[..|order| - 1], order[|order| - 1];
      var list := PersistedEntries(entries, order);
      assert order == before + [id] && list[..|list| - 1] == PersistedEntries(entries, before);
      RestoreReadsBack(entries, before);
      RestoringOneMore(entries, before, id);
      ReloadableOneMore(entries, before, id);
    }
  }

  lemma ReloadableOneMore(entries: Entries, before: seq<Text>, id: Text)
    requires forall other :: other in before + [id] ==> other in entries
    ensures ReloadableOver(entries, before + [id]) <==>
            && (forall other :: other in before ==> other in entries) && ReloadableOver(entries, before)
            && IsNamed(entries[id].evidence)
            && forall k :: 0 <= k < |before| ==> entries[before[k]].evidence != entries[id].evidence
  {
    var order := before + [id];
    assert order[|before|] == id && id in order;
    assert forall k :: 0 <= k < |before| ==> order[k] == before[k];
    assert forall other :: other in order <==> other in before || other == id;
  }

  lemma ReloadableOverAll(entries: Entries, order: seq<Text>)
    requires Enumerates(order, entries)
    ensures ReloadableOver(entries, order) <==> Reloadable(entries)
    ensures RestoredOver(entries, order).entries == entries
  {
    if ReloadableOver(entries, order) {
      forall a, b | a in entries && b in entries && a != b
        ensures entries[a].evidence != entries[b].evidence
      {
        var i :| 0 <= i < |order| && order[i] == a;
        var j :| 0 <= j < |order| && order[j] == b;
        assert if i < j then entries[order[i]].evidence != entries[order[j]].evidence
               else entries[order[j]].evidence != entries[order[i]].evidence;
      }
    }
  }

  lemma {:induction false} CounterStays(entries: Entries, order: seq<Text>, start: u64)
    requires forall id :: id in order ==> id in entries
    requires SequenceCovers(entries, start)
    ensures CounterFor(PersistedEntries(entries, order), start) == start
  {
    if order != [] {
      var before := order[..|order| - 1];
      var list := PersistedEntries(entries, order);
      assert list[..|list| - 1] == PersistedEntries(entries, before);
      CounterStays(entries, before, start);
    }
  }

  /**
   Persisting and loading gives the same registry back exactly when every entry has evidence of its
   own; one repeated pair, even of a retired entry, and the loader reports corruption.
   */
  lemma ReloadIff(s: Registry, order: seq<Text>)
    requires Printable(s) && Enumerates(order, s.entries) && SequenceCovers(s.entries, s.nextSequence)
    ensures ReadImage(PrintRegistry(s, order)).Some?
    ensures FromImage(ReadImage(PrintRegistry(s, order)).value)
         == if Reloadable(s.entries) then Ok(s) else Err(CorruptRegistry)
  {
    ImageReadsBack(s, order);
    RestoreReadsBack(s.entries, order);
    ReloadableOverAll(s.entries, order);
    CounterStays(s.entries, order, s.nextSequence);
  }

  lemma {:induction false} RestoredIsReloadable(list: seq<PersistedSource>)
    requires Restore(list).Some?
    ensures Reloadable(Restore(list).value.entries)
    ensures forall id :: id in Restore(list).value.entries ==>
              Restore(list).value.entries[id].evidence in Restore(list).value.index
  {
    if list != [] {
      RestoredIsReloadable(list[..|list| - 1]);
    }
  }

  lemma {:induction false} CounterIsRaised(list: seq<PersistedSource>, start: u64)
    requires Restore(list).Some?
    ensures SequenceCovers(Restore(list).value.entries, CounterFor(list, start)) && CounterFor(list, start) >= start
  {
    if list != [] {
      CounterIsRaised(list[..|list| - 1], start);
    }
  }

  /**
   Whatever a file contains, a registry loaded from it has evidence of its own for every entry, at
   most one open entry per evidence, and a counter past every numbered id.
   */
  lemma LoadedIsSound(image: Image)
    requires FromImage(image).Ok?
    ensures var s := FromImage(image).value;
            Reloadable(s.entries) && s.Sound() && SequenceCovers(s.entries, s.nextSequence)
  {
    RestoredIsReloadable(image.entries);
    CounterIsRaised(image.entries, image.header.nextSequence);
  }

  // ----- refreshing does not keep registries reloadable -----

  /** Exactly when one observation spoils it: new evidence that is empty, or that a retired entry still has. */
  lemma StaysReloadableIff(namespace: Text, observed: set<Evidence>, w: Work, o: Observation)
    requires AtMostOneOpen(w.entries) && Reloadable(w.entries) && ApplyOne(namespace, observed, w, o).ok
    ensures Reloadable(ApplyOne(namespace, observed, w, o).work.entries) <==>
            !o.continuity.Stable? || HasOpen(w.entries, o.continuity.evidence)
            || (IsNamed(o.continuity.evidence)
                && forall id :: id in w.entries ==> w.entries[id].evidence != o.continuity.evidence)
  {
    OneKeeps(namespace, observed, w, o);
    if o.continuity.Stable? && !HasOpen(w.entries, o.continuity.evidence) {
      var e := o.continuity.evidence;
      var reused := ReuseCandidates(w.entries, e, observed);
      var entries := if |reused| == 1 then RetireIn(w.entries, reused, NativeKeyReuse) else w.entries;
      RetiringKeeps(w.entries, reused, NativeKeyReuse);
      AllocatesUnused(namespace, entries, w.sequence, ALLOCATION_TRIES);
      var id := Allocate(namespace, entries, w.sequence, ALLOCATION_TRIES).id.value;
      AddedReloadableIff(w.entries, entries, id, SourceRecord(e, o.displayName, Live));
    } else if o.continuity.Ambiguous? {
      SameEvidenceReloadable(w.entries, ApplyOne(namespace, observed, w, o).work.entries);
    } else {
      SameEvidenceReloadable(w.entries, ApplyOne(namespace, observed, w, o).work.entries);
    }
  }

  lemma SameEvidenceReloadable(entries: Entries, later: Entries)
    requires Keeps(entries, later) && later.Keys == entries.Keys && Reloadable(entries)
    ensures Reloadable(later)
  {
    forall a, b | a in later && b in later && a != b
      ensures later[a].evidence != later[b].evidence
    {
      assert a in entries && b in entries;
    }
  }

  lemma AddedReloadableIff(was: Entries, entries: Entries, id: Text, record: SourceRecord)
    requires Keeps(was, entries) && entries.Keys == was.Keys && Reloadable(was) && id !in entries
    ensures Reloadable(entries[id := record]) <==>
            IsNamed(record.evidence) && forall other :: other in was ==> was[other].evidence != record.evidence
  {
    var later := entries[id := record];
    SameEvidenceReloadable(was, entries);
    if Reloadable(later) {
      assert id in later;
      forall other | other in was
        ensures was[other].evidence != record.evidence
      {
        assert other in later && other != id && later[other].evidence == was[other].evidence;
      }
    }
  }

  /** Evidence that becomes ambiguous spends the id it was live under. */
  lemma AmbiguityRetires(s: Registry, e: Evidence, name: Text, spent: Text)
    requires s.Sound() && SequenceCovers(s.entries, s.nextSequence) && s.nextSequence < U64_MAX
    requires spent in s.entries && s.entries[spent].state.Live? && s.entries[spent].evidence == e
    ensures var next := Refreshed(s, [Observation(name, Ambiguous([e]))]);
            && next.Sound() && SequenceCovers(next.entries, next.nextSequence) && next.nextSequence <= s.nextSequence + 1
            && spent in next.entries && !next.entries[spent].IsOpen() && next.entries[spent].evidence == e
  {
    var list := [Observation(name, Ambiguous([e]))];
    RefreshAllocates(s, list);
    RefreshCounts(s, list);
    MarkingKeeps(s.entries, Observed(list));
    SettledBecomesQuiet(s.namespace, Observed(list), Begin(s, list), list);
    assert IsQuiet(Refreshed(s, list).entries, list[0]);
    assert spent !in AmbiguousIds(Refreshed(s, list).entries, [e]);
  }

  /**
   Three refreshes that any registry can go through: evidence is seen, is ambiguous, and is seen
   again. What is persisted then can no longer be loaded.
   */
  lemma SeenAmbiguousSeenAgain(s: Registry, e: Evidence, name: Text)
    requires s.Sound() && SequenceCovers(s.entries, s.nextSequence) && s.nextSequence + 3 <= U64_MAX
    ensures var first := Refreshed(s, [Observation(name, Stable(e))]);
            var second := Refreshed(first, [Observation(name, Ambiguous([e]))]);
            !Reloadable(Refreshed(second, [Observation(name, Stable(e))]).entries)
  {
    var stable := [Observation(name, Stable(e))];
    var first := Refreshed(s, stable);
    RefreshAllocates(s, stable);
    RefreshCounts(s, stable);
    RefreshedLive(s, stable, e);
    var spent :| spent in first.entries && first.entries[spent].state.Live? && first.entries[spent].evidence == e;
    AmbiguityRetires(first, e, name, spent);
    var second := Refreshed(first, [Observation(name, Ambiguous([e]))]);
    var third := Refreshed(second, stable);
    RefreshAllocates(second, stable);
    RefreshedLive(second, stable, e);
    var again :| again in third.entries && third.entries[again].state.Live? && third.entries[again].evidence == e;
    assert spent in third.entries && !third.entries[spent].IsOpen();
  }
}
