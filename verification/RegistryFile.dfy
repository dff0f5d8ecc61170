/** Printing and loading the registry step by step, as the program does it. */
module RegistryFile {
  import opened Base
  import opened Identity
  import opened RegistryReload
  import opened RegistryText
  import opened Texts

  // ----- fields -----

  method EncodeField(value: Text) returns (out: Text)
    ensures out == Escape(value)
  {
    out := [];
    for i := 0 to |value|
      invariant out == Escape(value[..i])
    {
      assert value[..i + 1][..i] == value[..i];
      var byte := value[i];
      if FIRST_PLAIN <= byte <= LAST_PLAIN && byte != BAR && byte != PERCENT {
        out := out + [byte];
      } else {
        out := out + [PERCENT, HexDigit(byte / 16), HexDigit(byte % 16)];
      }
    }
    assert value[..|value|] == value;
  }

  method DecodeField(value: Text) returns (r: Option<Text>)
    ensures r == Unescape(value)
  {
    var bytes: Text, i := [], 0;
    NothingPrepended(UnescapeBytes(value));
    while i < |value|
      invariant i <= |value|
      invariant UnescapeBytes(value) == Prepend(bytes, UnescapeBytes(value[i..]))
    {
      if value[i] != PERCENT {
        assert value[i..][1..] == value[i + 1..];
        PrependTwice(bytes, [value[i]], UnescapeBytes(value[i + 1..]));
        bytes, i := bytes + [value[i]], i + 1;
      } else {
        if |value| < i + 3 {
          return None;
        }
        var byte := HexByte(value[i + 1], value[i + 2]);
        if byte.None? {
          return None;
        }
        assert value[i..][3..] == value[i + 3..];
        PrependTwice(bytes, [byte.value], UnescapeBytes(value[i + 3..]));
        bytes, i := bytes + [byte.value], i + 3;
      }
    }
    assert bytes + [] == bytes;
    return if ValidUtf8(bytes) then Some(bytes) else None;
  }

  lemma NothingPrepended(t: Option<Text>)
    ensures Prepend([], t) == t
  {
    assert t.Some? ==> [] + t.value == t.value;
  }

  // ----- printing -----

  lemma BodyOfFirst(line: Text, rest: seq<Text>)
    ensures Body([line] + rest) == line + [NEWLINE] + Body(rest)
  {
    assert ([line] + rest)[1..] == rest;
  }

  lemma {:induction false} BodyOfMore(lines: seq<Text>, line: Text)
    ensures Body(lines + [line]) == Body(lines) + (line + [NEWLINE])
  {
    if lines == [] {
      assert lines + [line] == [line] + [];
      BodyOfFirst(line, []);
    } else {
      BodyOfMore(lines[1..], line);
      assert (lines + [line])[1..] == lines[1..] + [line];
      Associative(lines[0] + [NEWLINE], Body(lines[1..]), line + [NEWLINE]);
    }
  }

  /** The header lines in front of whatever follows. */
  function HeaderText(s: Registry, count: nat): Text {
    FirstText(s) + LastText(s, count)
  }

  function FirstText(s: Registry): Text {
    Keyed(VERSION, PrintNat(CURRENT_SCHEMA)) + [NEWLINE] + (Keyed(EVIDENCE, PrintNat(CURRENT_SCHEMA)) + [NEWLINE])
    + (Keyed(NAMESPACE, Escape(s.namespace)) + [NEWLINE])
  }

  function LastText(s: Registry, count: nat): Text {
    Keyed(REVISION, PrintNat(s.revision)) + [NEWLINE] + (Keyed(NEXT_SEQUENCE, PrintNat(s.nextSequence)) + [NEWLINE])
    + (Keyed(ENTRIES, PrintNat(count)) + [NEWLINE])
  }

  lemma ThreeLines(a: Text, b: Text, c: Text, rest: seq<Text>)
    ensures Body([a] + ([b] + ([c] + rest))) == (a + [NEWLINE] + (b + [NEWLINE]) + (c + [NEWLINE])) + Body(rest)
  {
    BodyOfFirst(a, [b] + ([c] + rest));
    BodyOfFirst(b, [c] + rest);
    BodyOfFirst(c, rest);
    var x, y, z := a + [NEWLINE], b + [NEWLINE], c + [NEWLINE];
    Associative(y, z, Body(rest));
    Associative(x, y, z + Body(rest));
    Associative(x + y, z, Body(rest));
  }

  lemma HeaderInFront(s: Registry, count: nat, rest: seq<Text>)
    ensures Body(FirstLines(s, LastLines(s, count, rest))) == HeaderText(s, count) + Body(rest)
  {
    ThreeLines(Keyed(VERSION, PrintNat(CURRENT_SCHEMA)), Keyed(EVIDENCE, PrintNat(CURRENT_SCHEMA)),
               Keyed(NAMESPACE, Escape(s.namespace)), LastLines(s, count, rest));
    ThreeLines(Keyed(REVISION, PrintNat(s.revision)), Keyed(NEXT_SEQUENCE, PrintNat(s.nextSequence)),
               Keyed(ENTRIES, PrintNat(count)), rest);
    Associative(FirstText(s), LastText(s, count), Body(rest));
  }

  method PrintHeader(s: Registry) returns (body: Text)
    ensures body == HeaderText(s, |s.entries|)
  {
    var namespace := EncodeField(s.namespace);
    body := Keyed(VERSION, PrintNat(CURRENT_SCHEMA)) + [NEWLINE];
    body := body + (Keyed(EVIDENCE, PrintNat(CURRENT_SCHEMA)) + [NEWLINE]);
    body := body + (Keyed(NAMESPACE, namespace) + [NEWLINE]);
    var later := Keyed(REVISION, PrintNat(s.revision)) + [NEWLINE];
    later := later + (Keyed(NEXT_SEQUENCE, PrintNat(s.nextSequence)) + [NEWLINE]);
    later := later + (Keyed(ENTRIES, PrintNat(|s.entries|)) + [NEWLINE]);
    body := body + later;
  }

  method PrintEntry(id: Text, r: SourceRecord) returns (line: Text)
    ensures line == Joined(EntryParts(id, r))
  {
    var idField := EncodeField(id);
    var backendKey := EncodeField(r.evidence.backendKey);
    var token := EncodeField(r.evidence.token);
    var displayName := EncodeField(r.displayName);
    line := Joined([SOURCE, StateToken(PersistedOf(r.state)), idField, backendKey, token, displayName,
                    ReasonField(r.state)]);
  }

  method Print(s: Registry, order: seq<Text>) returns (body: Text)
    requires forall id :: id in order ==> id in s.entries
    ensures body == PrintRegistry(s, order)
  {
    var header := PrintHeader(s);
    body := header;
    for i := 0 to |order|
      invariant body == header + Body(EntryLines(s.entries, order[..i]))
    {
      assert order[..i + 1][..i] == order[..i];
      var line := PrintEntry(order[i], s.entries[order[i]]);
      BodyOfMore(EntryLines(s.entries, order[..i]), line);
      Associative(header, Body(EntryLines(s.entries, order[..i])), line + [NEWLINE]);
      body := body + (line + [NEWLINE]);
    }
    assert order[..|order|] == order;
    HeaderInFront(s, |s.entries|, EntryLines(s.entries, order));
  }

  // ----- loading -----

  method LoadHeader(lines: seq<Text>) returns (read: Option<HeaderRead>)
    ensures read == ReadHeader(lines, {}, NO_HEADER)
  {
    var h, seen, i := NO_HEADER, {}, 0;
    while i < |lines|
      invariant i <= |lines|
      invariant ReadHeader(lines, {}, NO_HEADER) == ReadHeader(lines[i..], seen, h)
    {
      assert lines[i..][1..] == lines[i + 1..];
      var split := SplitOnce(lines[i], BAR);
      if split.None? || split.value.0 in seen {
        return None;
      }
      var (key, value) := split.value;
      if key == ENTRIES {
        var count := ParseNat(value, U64_MAX);
        return if count.None? then None else Some(HeaderRead(h, count.value, lines[i + 1..]));
      }
      var next := ReadKey(h, key, value);
      if next.None? {
        return None;
      }
      h, seen, i := next.value, seen + {key}, i + 1;
    }
    return None;
  }

  lemma {:induction false} EntriesStop(lines: seq<Text>, n: nat)
    requires n <= |lines| && ReadEntries(lines[..n]).None?
    ensures ReadEntries(lines).None?
    decreases |lines| - n
  {
    if n == |lines| {
      assert lines[..n] == lines;
    } else {
      assert lines[..n + 1][..n] == lines[..n];
      EntriesStop(lines, n + 1);
    }
  }

  method LoadEntries(lines: seq<Text>) returns (entries: Option<seq<PersistedSource>>)
    ensures entries == ReadEntries(lines)
  {
    var read: seq<PersistedSource> := [];
    for i := 0 to |lines|
      invariant ReadEntries(lines[..i]) == Some(read)
    {
      assert lines[..i + 1][..i] == lines[..i];
      var entry := ReadEntry(lines[i]);
      if entry.None? {
        EntriesStop(lines, i + 1);
        return None;
      }
      read := read + [entry.value];
    }
    assert lines[..|lines|] == lines;
    return Some(read);
  }

  method LoadRegistry(body: Text) returns (image: Option<Image>)
    ensures image == ReadImage(body)
  {
    if !ValidUtf8(body) {
      return None;
    }
    var read := LoadHeader(WithoutBlanks(Lines(body)));
    if read.None? {
      return None;
    }
    var entries := LoadEntries(read.value.rest);
    if entries.None? || |entries.value| != read.value.count || read.value.header.namespace == [] {
      return None;
    }
    return Some(Image(read.value.header, entries.value));
  }

  // ----- restoring -----

  lemma {:induction false} RestoreStops(list: seq<PersistedSource>, n: nat)
    requires n <= |list| && Restore(list[..n]).None?
    ensures Restore(list).None?
    decreases |list| - n
  {
    if n == |list| {
      assert list[..n] == list;
    } else {
      assert list[..n + 1][..n] == list[..n];
      RestoreStops(list, n + 1);
    }
  }

  method RestoreEntries(list: seq<PersistedSource>) returns (r: Option<Entries>)
    ensures r.None? <==> Restore(list).None?
    ensures r.Some? ==> Restore(list).value.entries == r.value
  {
    var entries: Entries, index: set<Evidence> := map[], {};
    for i := 0 to |list|
      invariant Restore(list[..i]) == Some(Restored(entries, index))
    {
      assert list[..i + 1][..i] == list[..i];
      var p := list[i];
      var state := RestoredState(p);
      if IsBlank(p.id) || p.id in entries || p.evidence.backendKey == [] || p.evidence.token == []
         || p.evidence in index || state.None?
      {
        RestoreStops(list, i + 1);
        return None;
      }
      index := index + {p.evidence};
      entries := entries[p.id := SourceRecord(p.evidence, p.displayName, state.value)];
    }
    assert list[..|list|] == list;
    return Some(entries);
  }

  /** The start, or the largest number carried by an id if that is more. */
  ghost predicate IsCounter(n: nat, start: nat, ids: set<Text>) {
    && n >= start
    && (forall id :: id in ids ==> ParseSequence(id).None? || ParseSequence(id).value <= n)
    && (n == start || exists id :: id in ids && ParseSequence(id) == Some(n))
  }

  lemma {:induction false} CounterForIsCounter(list: seq<PersistedSource>, start: u64, entries: Entries)
    requires Restore(list).Some? && Restore(list).value.entries == entries
    ensures IsCounter(CounterFor(list, start), start, entries.Keys)
  {
    if list != [] {
      CounterForIsCounter(list[..|list| - 1], start, Restore(list[..|list| - 1]).value.entries);
    }
  }

  lemma OneCounter(m: nat, n: nat, start: nat, ids: set<Text>)
    requires IsCounter(m, start, ids) && IsCounter(n, start, ids)
    ensures m == n
  {
  }

  method HighestSequence(entries: Entries, start: u64) returns (counter: u64)
    ensures IsCounter(counter, start, entries.Keys)
  {
    counter := start;
    var left, done := entries.Keys, {};
    while left != {}
      invariant left + done == entries.Keys
      invariant IsCounter(counter, start, done)
      decreases |left|
    {
      var id :| id in left;
      var parsed := ParseSequence(id);
      if parsed.Some? && parsed.value > counter {
        counter := parsed.value;
      }
      left, done := left - {id}, done + {id};
    }
    assert done == entries.Keys;
  }

  method FromPersisted(image: Image) returns (r: Result<Registry, LoadError>)
    ensures r == FromImage(image)
  {
    var _ :- CheckSchema(image.header);
    var entries := RestoreEntries(image.entries);
    if entries.None? {
      return Err(CorruptRegistry);
    }
    var counter := HighestSequence(entries.value, image.header.nextSequence);
    CounterForIsCounter(image.entries, image.header.nextSequence, entries.value);
    OneCounter(counter, CounterFor(image.entries, image.header.nextSequence), image.header.nextSequence,
               entries.value.Keys);
    return Ok(Registry(image.header.namespace, image.header.revision, counter, entries.value));
  }
}
