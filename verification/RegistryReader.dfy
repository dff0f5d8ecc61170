/** Exactly which files load, and to what: the format as the reader understands it. */
module RegistryReader {
  import opened Base
  import opened Identity
  import opened RegistryReload
  import opened RegistryText
  import opened Texts

  // ----- splitting -----

  lemma {:induction false} SplitOnceIs(t: Text, separator: u8)
    ensures var split := SplitOnce(t, separator);
            if separator in t then
              split.Some? && separator !in split.value.0 && t == split.value.0 + [separator] + split.value.1
            else split.None?
  {
    if t != [] && t[0] != separator {
      SplitOnceIs(t[1..], separator);
      assert separator in t <==> separator in t[1..];
    }
  }

  /** The parts of a line are the texts between its bars. */
  lemma {:induction false} PartsIff(line: Text, parts: seq<Text>)
    ensures Parts(line) == parts <==>
            parts != [] && (forall k :: 0 <= k < |parts| ==> BAR !in parts[k]) && Joined(parts) == line
  {
    PartsAreBetweenBars(line);
    if parts != [] && (forall k :: 0 <= k < |parts| ==> BAR !in parts[k]) && Joined(parts) == line {
      BetweenBarsAreParts(parts);
    }
  }

  lemma {:induction false} PartsAreBetweenBars(line: Text)
    ensures forall k :: 0 <= k < |Parts(line)| ==> BAR !in Parts(line)[k]
    ensures Joined(Parts(line)) == line
    decreases |line|
  {
    SplitOnceIs(line, BAR);
    if BAR in line {
      var (head, tail) := SplitOnce(line, BAR).value;
      PartsAreBetweenBars(tail);
      assert Parts(line)[1..] == Parts(tail);
    }
  }

  lemma {:induction false} BetweenBarsAreParts(parts: seq<Text>)
    requires parts != [] && forall k :: 0 <= k < |parts| ==> BAR !in parts[k]
    ensures Parts(Joined(parts)) == parts
  {
    assert BAR !in parts[0];
    if |parts| == 1 {
      NothingToSplit(parts[0], BAR);
    } else {
      assert forall k :: 0 <= k < |parts[1..]| ==> parts[1..][k] == parts[k + 1];
      BetweenBarsAreParts(parts[1..]);
      SplitOnceAt(parts[0], BAR, Joined(parts[1..]));
    }
  }

  // ----- lines -----

  datatype Ending = Lf | CrLf

  function EndingBytes(e: Ending): Text {
    if e.Lf? then [NEWLINE] else [RETURN] + [NEWLINE]
  }

  /** Lines, each with its own kind of ending. */
  function Written(lines: seq<Text>, endings: seq<Ending>): Text
    requires |lines| == |endings|
  {
    if lines == [] then [] else lines[0] + EndingBytes(endings[0]) + Written(lines[1..], endings[1..])
  }

  predicate IsOneLine(line: Text) {
    NEWLINE !in line && (line != [] ==> line[|line| - 1] != RETURN)
  }

  lemma FirstLineOf(line: Text, e: Ending, rest: Text)
    requires IsOneLine(line)
    ensures Lines(line + EndingBytes(e) + rest) == [line] + Lines(rest)
  {
    var body := line + EndingBytes(e) + rest;
    if e.Lf? {
      SplitOnceAt(line, NEWLINE, rest);
    } else {
      var kept := line + [RETURN];
      assert NEWLINE !in kept;
      SplitOnceAt(kept, NEWLINE, rest);
      assert body == kept + [NEWLINE] + rest;
      assert kept[..|kept| - 1] == line;
    }
  }

  /** Whichever way its lines end, a file reads as the same lines. */
  lemma {:induction false} EndingsDoNotMatter(lines: seq<Text>, endings: seq<Ending>)
    requires |lines| == |endings|
    requires forall k :: 0 <= k < |lines| ==> IsOneLine(lines[k])
    ensures Lines(Written(lines, endings)) == lines
  {
    if lines != [] {
      assert forall k :: 0 <= k < |lines[1..]| ==> lines[1..][k] == lines[k + 1];
      EndingsDoNotMatter(lines[1..], endings[1..]);
      FirstLineOf(lines[0], endings[0], Written(lines[1..], endings[1..]));
    }
  }

  /** Blank lines count for nothing, wherever they stand; every other line stays in its place. */
  lemma {:induction false} BlanksDoNotMatter(before: seq<Text>, line: Text, after: seq<Text>)
    ensures WithoutBlanks(before + ([line] + after))
         == WithoutBlanks(before) + ((if IsBlank(line) then [] else [line]) + WithoutBlanks(after))
  {
    if before == [] {
      assert before + ([line] + after) == [line] + after;
      assert ([line] + after)[1..] == after;
    } else {
      BlanksDoNotMatter(before[1..], line, after);
      assert (before + ([line] + after))[1..] == before[1..] + ([line] + after);
    }
  }

  // ----- entries -----

  predicate ReasonSays(p: PersistedSource, field: Text) {
    if p.state.PersistedRetired? && field != [] then
      && Unescape(field).Some?
      && (p.reason.Some? ==> Unescape(field).value == ReasonToken(p.reason.value))
      && (p.reason.None? ==> forall reason :: Unescape(field).value != ReasonToken(reason))
    else p.reason.None?
  }

  /** Seven fields: what it is, its state, four texts, and the reason of a retired entry. */
  predicate EntrySays(fields: seq<Text>, p: PersistedSource) {
    && |fields| == 7
    && fields[0] == SOURCE
    && fields[1] == StateToken(p.state)
    && Unescape(fields[2]) == Some(p.id)
    && Unescape(fields[3]) == Some(p.evidence.backendKey)
    && Unescape(fields[4]) == Some(p.evidence.token)
    && Unescape(fields[5]) == Some(p.displayName)
    && ReasonSays(p, fields[6])
  }

  lemma StateIff(t: Text, state: PersistedState)
    ensures TokenToState(t) == Some(state) <==> t == StateToken(state)
  {
    StateReadsBack(state);
  }

  lemma ReasonIs(t: Text)
    ensures TokenToReason(t).Some? ==> t == ReasonToken(TokenToReason(t).value)
    ensures TokenToReason(t).None? ==> forall reason :: t != ReasonToken(reason)
  {
    forall reason: RetiredReason
      ensures TokenToReason(ReasonToken(reason)) == Some(reason)
    {
      ReasonsDiffer(reason);
    }
  }

  lemma ReasonSaysIff(p: PersistedSource, field: Text)
    ensures ReadReason(p.state, field) == Some(p.reason) <==> ReasonSays(p, field)
  {
    if p.state.PersistedRetired? && field != [] && Unescape(field).Some? {
      var token := Unescape(field).value;
      ReasonIs(token);
      if p.reason.Some? {
        ReasonsDiffer(p.reason.value);
      }
    }
  }

  /** Exactly which line is which entry. */
  lemma EntryReadsIff(line: Text, p: PersistedSource)
    ensures ReadEntry(line) == Some(p) <==> EntrySays(Parts(line), p)
  {
    var fields := Parts(line);
    if |fields| == 7 {
      StateIff(fields[1], p.state);
      ReasonSaysIff(p, fields[6]);
    }
  }

  predicate EntrySaysAt(lines: seq<Text>, entries: seq<PersistedSource>, k: nat)
    requires k < |lines| && k < |entries|
  {
    EntrySays(Parts(lines[k]), entries[k])
  }

  predicate EntriesSay(lines: seq<Text>, entries: seq<PersistedSource>) {
    |lines| == |entries| && forall k :: 0 <= k < |lines| ==> EntrySaysAt(lines, entries, k)
  }

  lemma {:induction false} EntriesReadIff(lines: seq<Text>, entries: seq<PersistedSource>)
    ensures ReadEntries(lines) == Some(entries) <==> EntriesSay(lines, entries)
  {
    if lines == [] {
      assert entries == [] <==> |entries| == 0;
    } else if entries != [] {
      var n, m := |lines| - 1, |entries| - 1;
      EntriesReadIff(lines[..n], entries[..m]);
      EntryReadsIff(lines[n], entries[m]);
      assert entries == entries[..m] + [entries[m]];
      assert EntriesSay(lines, entries) <==> EntriesSay(lines[..n], entries[..m]) && EntrySays(Parts(lines[n]), entries[m]) by {
        LastEntrySays(lines, entries);
      }
      if ReadEntries(lines) == Some(entries) {
        var before := ReadEntries(lines[..n]).value;
        assert before == (before + [entries[m]])[..|before|];
      }
    }
  }

  lemma LastEntrySays(lines: seq<Text>, entries: seq<PersistedSource>)
    requires lines != [] && entries != []
    ensures var n, m := |lines| - 1, |entries| - 1;
            EntriesSay(lines, entries) <==> EntriesSay(lines[..n], entries[..m]) && EntrySays(Parts(lines[n]), entries[m])
  {
    var n, m := |lines| - 1, |entries| - 1;
    if n == m {
      forall k | 0 <= k < n
        ensures EntrySaysAt(lines[..n], entries[..m], k) <==> EntrySaysAt(lines, entries, k)
      {
      }
      assert EntrySaysAt(lines, entries, n) <==> EntrySays(Parts(lines[n]), entries[m]);
    }
  }

  // ----- the header -----

  function KeyOf(line: Text): Text {
    match SplitOnce(line, BAR)
    case Some((key, _)) => key
    case None => []
  }

  function ValueOf(line: Text): Text {
    match SplitOnce(line, BAR)
    case Some((_, value)) => value
    case None => []
  }

  predicate IsKnownKey(key: Text) {
    key == VERSION || key == EVIDENCE || key == NAMESPACE || key == REVISION || key == NEXT_SEQUENCE
  }

  predicate IsAbsent(lines: seq<Text>, n: nat, key: Text)
    requires n <= |lines|
  {
    forall i :: 0 <= i < n ==> KeyOf(lines[i]) != key
  }

  /** A number is what its line says, and zero without one. */
  predicate NumberSays(lines: seq<Text>, n: nat, key: Text, max: nat, number: nat)
    requires n <= |lines|
  {
    && (forall i :: 0 <= i < n && KeyOf(lines[i]) == key ==> ParseNat(ValueOf(lines[i]), max) == Some(number))
    && (IsAbsent(lines, n, key) ==> number == 0)
  }

  predicate NamespaceSays(lines: seq<Text>, n: nat, namespace: Text)
    requires n <= |lines|
  {
    && (forall i :: 0 <= i < n && KeyOf(lines[i]) == NAMESPACE ==> Unescape(ValueOf(lines[i])) == Some(namespace))
    && (IsAbsent(lines, n, NAMESPACE) ==> namespace == [])
  }

  predicate HeaderSays(lines: seq<Text>, n: nat, h: Header)
    requires n <= |lines|
  {
    && NumberSays(lines, n, VERSION, U32_MAX, h.schema)
    && NumberSays(lines, n, EVIDENCE, U32_MAX, h.evidenceSchema)
    && NamespaceSays(lines, n, h.namespace)
    && NumberSays(lines, n, REVISION, U64_MAX, h.revision)
    && NumberSays(lines, n, NEXT_SEQUENCE, U64_MAX, h.nextSequence)
  }

  predicate KeysAreKnownAndDiffer(lines: seq<Text>, n: nat)
    requires n <= |lines|
  {
    forall i :: 0 <= i < n ==> IsKnownKey(KeyOf(lines[i])) && IsAbsent(lines, i, KeyOf(lines[i]))
  }

  /** Known keys, none twice, in front of the line with the number of entries. */
  predicate IsHeader(lines: seq<Text>, n: nat, h: Header, count: nat) {
    && n < |lines|
    && KeysAreKnownAndDiffer(lines, n) && HeaderSays(lines, n, h)
    && KeyOf(lines[n]) == ENTRIES && ParseNat(ValueOf(lines[n]), U64_MAX) == Some(count)
  }

  /** What the reader knows after `k` lines. */
  ghost predicate HasRead(lines: seq<Text>, k: nat, seen: set<Text>, h: Header) {
    k <= |lines| && KeysAreKnownAndDiffer(lines, k) && HeaderSays(lines, k, h) && HasSeen(lines, k, seen)
  }

  ghost predicate HasSeen(lines: seq<Text>, k: nat, seen: set<Text>)
    requires k <= |lines|
  {
    forall key :: key in seen <==> !IsAbsent(lines, k, key)
  }

  lemma NumberStep(lines: seq<Text>, k: nat, key: Text, max: nat, number: nat, next: nat)
    requires k < |lines| && NumberSays(lines, k, key, max, number)
    requires if KeyOf(lines[k]) == key then
               IsAbsent(lines, k, key) && ParseNat(ValueOf(lines[k]), max) == Some(next)
             else next == number
    ensures NumberSays(lines, k + 1, key, max, next)
  {
    if KeyOf(lines[k]) != key {
      assert IsAbsent(lines, k + 1, key) ==> IsAbsent(lines, k, key);
    }
  }

  lemma NamespaceStep(lines: seq<Text>, k: nat, namespace: Text, next: Text)
    requires k < |lines| && NamespaceSays(lines, k, namespace)
    requires if KeyOf(lines[k]) == NAMESPACE then
               IsAbsent(lines, k, NAMESPACE) && Unescape(ValueOf(lines[k])) == Some(next)
             else next == namespace
    ensures NamespaceSays(lines, k + 1, next)
  {
    if KeyOf(lines[k]) != NAMESPACE {
      assert IsAbsent(lines, k + 1, NAMESPACE) ==> IsAbsent(lines, k, NAMESPACE);
    }
  }

  lemma HeaderStep(lines: seq<Text>, k: nat, h: Header, next: Header)
    requires k < |lines| && HeaderSays(lines, k, h) && IsAbsent(lines, k, KeyOf(lines[k]))
    requires ReadKey(h, KeyOf(lines[k]), ValueOf(lines[k])) == Some(next)
    ensures IsKnownKey(KeyOf(lines[k])) && HeaderSays(lines, k + 1, next)
  {
    KeysDiffer();
    NumberStep(lines, k, VERSION, U32_MAX, h.schema, next.schema);
    NumberStep(lines, k, EVIDENCE, U32_MAX, h.evidenceSchema, next.evidenceSchema);
    NamespaceStep(lines, k, h.namespace, next.namespace);
    NumberStep(lines, k, REVISION, U64_MAX, h.revision, next.revision);
    NumberStep(lines, k, NEXT_SEQUENCE, U64_MAX, h.nextSequence, next.nextSequence);
  }

  lemma SeenStep(lines: seq<Text>, k: nat, seen: set<Text>)
    requires k < |lines| && HasSeen(lines, k, seen)
    ensures HasSeen(lines, k + 1, seen + {KeyOf(lines[k])})
  {
    forall key
      ensures IsAbsent(lines, k + 1, key) <==> IsAbsent(lines, k, key) && KeyOf(lines[k]) != key
    {
    }
  }

  lemma KeysStep(lines: seq<Text>, k: nat)
    requires k < |lines| && KeysAreKnownAndDiffer(lines, k)
    requires IsKnownKey(KeyOf(lines[k])) && IsAbsent(lines, k, KeyOf(lines[k]))
    ensures KeysAreKnownAndDiffer(lines, k + 1)
  {
  }

  lemma ReadStep(lines: seq<Text>, k: nat, seen: set<Text>, h: Header, next: Header)
    requires HasRead(lines, k, seen, h) && k < |lines| && KeyOf(lines[k]) !in seen
    requires ReadKey(h, KeyOf(lines[k]), ValueOf(lines[k])) == Some(next)
    ensures HasRead(lines, k + 1, seen + {KeyOf(lines[k])}, next)
  {
    HeaderStep(lines, k, h, next);
    SeenStep(lines, k, seen);
    KeysStep(lines, k);
  }

  /** One more line is read, or the last one. */
  lemma ReadOne(lines: seq<Text>, k: nat, seen: set<Text>, h: Header)
    requires k < |lines|
    ensures var key, value := KeyOf(lines[k]), ValueOf(lines[k]);
            ReadHeader(lines[k..], seen, h)
            == if SplitOnce(lines[k], BAR).None? || key in seen then None
               else if key == ENTRIES then
                 if ParseNat(value, U64_MAX).None? then None
                 else Some(HeaderRead(h, ParseNat(value, U64_MAX).value, lines[k + 1..]))
               else if ReadKey(h, key, value).None? then None
               else ReadHeader(lines[k + 1..], seen + {key}, ReadKey(h, key, value).value)
  {
    assert lines[k..][0] == lines[k] && lines[k..][1..] == lines[k + 1..];
  }

  lemma KeyIsThere(line: Text)
    ensures SplitOnce(line, BAR).None? ==> KeyOf(line) == []
    ensures IsKnownKey(KeyOf(line)) || KeyOf(line) == ENTRIES ==> SplitOnce(line, BAR).Some?
    ensures !IsKnownKey(ENTRIES)
  {
    KeysDiffer();
  }

  lemma ReadGoesOn(lines: seq<Text>, k: nat, seen: set<Text>, h: Header)
    requires k <= |lines| && ReadHeader(lines[k..], seen, h).Some?
    ensures k < |lines| && KeyOf(lines[k]) !in seen
    ensures var key, value, read := KeyOf(lines[k]), ValueOf(lines[k]), ReadHeader(lines[k..], seen, h);
            if key == ENTRIES then
              ParseNat(value, U64_MAX) == Some(read.value.count) && read == Some(HeaderRead(h, read.value.count, lines[k + 1..]))
            else
              && ReadKey(h, key, value).Some?
              && read == ReadHeader(lines[k + 1..], seen + {key}, ReadKey(h, key, value).value)
  {
    if k < |lines| {
      ReadOne(lines, k, seen, h);
    }
  }

  lemma HeaderEnds(lines: seq<Text>, k: nat, seen: set<Text>, h: Header, count: nat)
    requires HasRead(lines, k, seen, h) && k < |lines|
    requires KeyOf(lines[k]) == ENTRIES && ParseNat(ValueOf(lines[k]), U64_MAX) == Some(count)
    ensures IsHeader(lines, k, h, count)
  {
  }

  lemma LineIsRead(lines: seq<Text>, k: nat, seen: set<Text>, h: Header) returns (next: Header)
    requires HasRead(lines, k, seen, h) && ReadHeader(lines[k..], seen, h).Some?
    requires k < |lines| && KeyOf(lines[k]) != ENTRIES
    ensures HasRead(lines, k + 1, seen + {KeyOf(lines[k])}, next)
    ensures ReadHeader(lines[k..], seen, h) == ReadHeader(lines[k + 1..], seen + {KeyOf(lines[k])}, next)
  {
    ReadGoesOn(lines, k, seen, h);
    next := ReadKey(h, KeyOf(lines[k]), ValueOf(lines[k])).value;
    ReadStep(lines, k, seen, h, next);
  }

  lemma LastLineIsRead(lines: seq<Text>, k: nat, seen: set<Text>, h: Header)
    requires HasRead(lines, k, seen, h) && ReadHeader(lines[k..], seen, h).Some?
    requires k < |lines| && KeyOf(lines[k]) == ENTRIES
    ensures var read := ReadHeader(lines[k..], seen, h).value;
            IsHeader(lines, k, read.header, read.count) && read.rest == lines[k + 1..]
  {
    ReadGoesOn(lines, k, seen, h);
    HeaderEnds(lines, k, seen, h, ReadHeader(lines[k..], seen, h).value.count);
  }

  /** What is read is a header. */
  lemma ReadIsHeader(lines: seq<Text>) returns (n: nat)
    requires ReadHeader(lines[0..], {}, NO_HEADER).Some?
    ensures var read := ReadHeader(lines[0..], {}, NO_HEADER).value;
            IsHeader(lines, n, read.header, read.count) && read.rest == lines[n + 1..]
  {
    var seen, h := {}, NO_HEADER;
    n := 0;
    ReadGoesOn(lines, n, seen, h);
    while KeyOf(lines[n]) != ENTRIES
      invariant n < |lines| && HasRead(lines, n, seen, h)
      invariant ReadHeader(lines[0..], {}, NO_HEADER) == ReadHeader(lines[n..], seen, h)
      decreases |lines| - n
    {
      h := LineIsRead(lines, n, seen, h);
      n, seen := n + 1, seen + {KeyOf(lines[n])};
      ReadGoesOn(lines, n, seen, h);
    }
    LastLineIsRead(lines, n, seen, h);
  }

  lemma NumberIsUnique(lines: seq<Text>, n: nat, key: Text, max: nat, a: nat, b: nat)
    requires n <= |lines| && NumberSays(lines, n, key, max, a) && NumberSays(lines, n, key, max, b)
    ensures a == b
  {
    if !IsAbsent(lines, n, key) {
      var i :| 0 <= i < n && KeyOf(lines[i]) == key;
    }
  }

  lemma HeaderIsUnique(lines: seq<Text>, n: nat, g: Header, h: Header)
    requires n <= |lines| && HeaderSays(lines, n, g) && HeaderSays(lines, n, h)
    ensures g == h
  {
    NumberIsUnique(lines, n, VERSION, U32_MAX, g.schema, h.schema);
    NumberIsUnique(lines, n, EVIDENCE, U32_MAX, g.evidenceSchema, h.evidenceSchema);
    NumberIsUnique(lines, n, REVISION, U64_MAX, g.revision, h.revision);
    NumberIsUnique(lines, n, NEXT_SEQUENCE, U64_MAX, g.nextSequence, h.nextSequence);
    if !IsAbsent(lines, n, NAMESPACE) {
      var i :| 0 <= i < n && KeyOf(lines[i]) == NAMESPACE;
    }
  }

  lemma KnownKeyReads(lines: seq<Text>, n: nat, h: Header, k: nat, g: Header)
    requires k < n <= |lines| && IsKnownKey(KeyOf(lines[k])) && HeaderSays(lines, n, h)
    ensures ReadKey(g, KeyOf(lines[k]), ValueOf(lines[k])).Some?
  {
    KeysDiffer();
  }

  lemma NextKeyIsNew(lines: seq<Text>, n: nat, k: nat, seen: set<Text>)
    requires k <= n < |lines| && KeysAreKnownAndDiffer(lines, n) && KeyOf(lines[n]) == ENTRIES && HasSeen(lines, k, seen)
    ensures KeyOf(lines[k]) !in seen && SplitOnce(lines[k], BAR).Some?
    ensures k < n <==> KeyOf(lines[k]) != ENTRIES
    ensures k < n ==> IsKnownKey(KeyOf(lines[k]))
  {
    KeyIsThere(lines[k]);
    assert IsAbsent(lines, k, KeyOf(lines[k])) by {
      assert !IsKnownKey(ENTRIES);
    }
  }

  lemma KeyIsRead(lines: seq<Text>, n: nat, h: Header, count: nat, k: nat, seen: set<Text>, g: Header)
    returns (next: Header)
    requires IsHeader(lines, n, h, count) && k < n && HasRead(lines, k, seen, g)
    ensures HasRead(lines, k + 1, seen + {KeyOf(lines[k])}, next)
    ensures ReadHeader(lines[k..], seen, g) == ReadHeader(lines[k + 1..], seen + {KeyOf(lines[k])}, next)
  {
    NextKeyIsNew(lines, n, k, seen);
    KnownKeyReads(lines, n, h, k, g);
    next := ReadKey(g, KeyOf(lines[k]), ValueOf(lines[k])).value;
    ReadStep(lines, k, seen, g, next);
    ReadOne(lines, k, seen, g);
  }

  lemma CountIsRead(lines: seq<Text>, n: nat, h: Header, count: nat, seen: set<Text>, g: Header)
    requires IsHeader(lines, n, h, count) && HasRead(lines, n, seen, g)
    ensures ReadHeader(lines[n..], seen, g) == Some(HeaderRead(h, count, lines[n + 1..]))
  {
    NextKeyIsNew(lines, n, n, seen);
    HeaderIsUnique(lines, n, g, h);
    ReadOne(lines, n, seen, g);
  }

  /** A header is read. */
  lemma HeaderIsRead(lines: seq<Text>, n: nat, h: Header, count: nat)
    requires IsHeader(lines, n, h, count)
    ensures ReadHeader(lines[0..], {}, NO_HEADER) == Some(HeaderRead(h, count, lines[n + 1..]))
  {
    var k, seen, g := 0, {}, NO_HEADER;
    while k < n
      invariant k <= n && HasRead(lines, k, seen, g)
      invariant ReadHeader(lines[0..], {}, NO_HEADER) == ReadHeader(lines[k..], seen, g)
    {
      g := KeyIsRead(lines, n, h, count, k, seen, g);
      k, seen := k + 1, seen + {KeyOf(lines[k])};
    }
    CountIsRead(lines, n, h, count, seen, g);
  }

  // ----- the file -----

  /** A header, then as many entries as it announces, and nothing else; and the namespace has a name. */
  predicate IsImage(lines: seq<Text>, n: nat, image: Image) {
    && n < |lines| && IsHeader(lines, n, image.header, |image.entries|)
    && EntriesSay(lines[n + 1..], image.entries)
    && image.header.namespace != []
  }

  ghost predicate IsImageOf(lines: seq<Text>, image: Image) {
    exists n: nat :: IsImage(lines, n, image)
  }

  lemma NothingRead(lines: seq<Text>)
    ensures HasRead(lines, 0, {}, NO_HEADER) && lines[0..] == lines
  {
  }

  lemma ReadIsImage(lines: seq<Text>, image: Image)
    requires ReadHeader(lines, {}, NO_HEADER).Some?
    requires var read := ReadHeader(lines, {}, NO_HEADER).value;
             && ReadEntries(read.rest) == Some(image.entries) && |image.entries| == read.count
             && read.header == image.header && image.header.namespace != []
    ensures IsImageOf(lines, image)
  {
    NothingRead(lines);
    var n := ReadIsHeader(lines);
    EntriesReadIff(lines[n + 1..], image.entries);
    assert IsImage(lines, n, image);
  }

  lemma ImageIsRead(lines: seq<Text>, image: Image, n: nat)
    requires IsImage(lines, n, image)
    ensures ReadHeader(lines, {}, NO_HEADER) == Some(HeaderRead(image.header, |image.entries|, lines[n + 1..]))
    ensures ReadEntries(lines[n + 1..]) == Some(image.entries)
  {
    NothingRead(lines);
    HeaderIsRead(lines, n, image.header, |image.entries|);
    EntriesReadIff(lines[n + 1..], image.entries);
  }

  /** Exactly which file is which image. */
  lemma ImageReadsIff(body: Text, image: Image)
    ensures ReadImage(body) == Some(image) <==> ValidUtf8(body) && IsImageOf(WithoutBlanks(Lines(body)), image)
  {
    var lines := WithoutBlanks(Lines(body));
    if ReadImage(body) == Some(image) {
      ReadIsImage(lines, image);
    }
    if IsImageOf(lines, image) {
      var n: nat :| IsImage(lines, n, image);
      ImageIsRead(lines, image, n);
    }
  }

  // ----- the registry -----

  predicate IsRestorable(p: PersistedSource) {
    !IsBlank(p.id) && IsNamed(p.evidence) && (p.state.PersistedRetired? ==> p.reason.Some?)
  }

  predicate AreRestorable(list: seq<PersistedSource>) {
    && (forall i :: 0 <= i < |list| ==> IsRestorable(list[i]))
    && forall i, j :: 0 <= i < j < |list| ==> list[i].id != list[j].id && list[i].evidence != list[j].evidence
  }

  /** The record restored is what was persisted of it. */
  predicate IsRestored(p: PersistedSource, r: SourceRecord) {
    && r.evidence == p.evidence && r.displayName == p.displayName && PersistedOf(r.state) == p.state
    && (r.state.Retired? ==> p.reason == Some(r.state.reason))
  }

  ghost predicate RestoresTo(list: seq<PersistedSource>, entries: Entries) {
    && (forall i :: 0 <= i < |list| ==> list[i].id in entries && IsRestored(list[i], entries[list[i].id]))
    && (forall id :: id in entries ==> exists i :: 0 <= i < |list| && list[i].id == id)
  }

  ghost predicate Indexes(list: seq<PersistedSource>, index: set<Evidence>) {
    forall e :: e in index <==> exists i :: 0 <= i < |list| && list[i].evidence == e
  }

  lemma RestoreStep(before: seq<PersistedSource>, last: PersistedSource, r: Restored)
    requires RestoresTo(before, r.entries) && Indexes(before, r.index)
    ensures var list, next := before + [last], RestoreOne(r, last);
            && (next.Some? <==>
                IsRestorable(last) && forall i :: 0 <= i < |before| ==>
                  before[i].id != last.id && before[i].evidence != last.evidence)
            && (next.Some? ==> RestoresTo(list, next.value.entries) && Indexes(list, next.value.index))
  {
    var list, next := before + [last], RestoreOne(r, last);
    if next.Some? {
      assert list[|before|] == last;
      assert forall i :: 0 <= i < |before| ==> list[i] == before[i];
      forall id | id in next.value.entries
        ensures exists i :: 0 <= i < |list| && list[i].id == id
      {
        if id == last.id {
          assert list[|before|].id == id;
        } else {
          var i :| 0 <= i < |before| && before[i].id == id;
          assert list[i].id == id;
        }
      }
      forall e
        ensures e in next.value.index <==> exists i :: 0 <= i < |list| && list[i].evidence == e
      {
        if e in r.index {
          var i :| 0 <= i < |before| && before[i].evidence == e;
          assert list[i].evidence == e;
        }
      }
    }
  }

  lemma RestorableStep(before: seq<PersistedSource>, last: PersistedSource)
    ensures AreRestorable(before + [last]) <==>
            && AreRestorable(before) && IsRestorable(last)
            && forall i :: 0 <= i < |before| ==> before[i].id != last.id && before[i].evidence != last.evidence
  {
    var list := before + [last];
    assert list[|before|] == last;
    assert forall i :: 0 <= i < |before| ==> list[i] == before[i];
  }

  lemma {:induction false} RestoresIff(list: seq<PersistedSource>)
    ensures Restore(list).Some? <==> AreRestorable(list)
    ensures Restore(list).Some? ==> RestoresTo(list, Restore(list).value.entries) && Indexes(list, Restore(list).value.index)
  {
    if list != [] {
      var before, last := list[..|list| - 1], list[|list| - 1];
      assert list == before + [last];
      RestoresIff(before);
      RestorableStep(before, last);
      if Restore(before).Some? {
        RestoreStep(before, last, Restore(before).value);
      }
    }
  }

  /**
   An image becomes a registry exactly if both schemas are this one, every entry can be restored, and
   no two share an id or evidence; the entries are what was persisted of them.
   */
  lemma LoadsIff(image: Image)
    ensures FromImage(image).Ok? <==>
            image.header.schema == 1 && image.header.evidenceSchema == 1 && AreRestorable(image.entries)
    ensures FromImage(image).Ok? ==>
              var s := FromImage(image).value;
              && s.namespace == image.header.namespace && s.revision == image.header.revision
              && RestoresTo(image.entries, s.entries)
    ensures FromImage(image).Err? ==>
              match FromImage(image).error
              case MigrationFailed => image.header.schema == 0 || image.header.evidenceSchema == 0
              case UnsupportedSchema(expected, observed) =>
                1 == expected < observed && (observed == image.header.schema || observed == image.header.evidenceSchema)
              case CorruptRegistry => !AreRestorable(image.entries)
  {
    RestoresIff(image.entries);
  }

  predicate Carries(p: PersistedSource, number: nat) {
    ParseSequence(p.id) == Some(number)
  }

  predicate CarriesAtMost(p: PersistedSource, number: nat) {
    ParseSequence(p.id).None? || ParseSequence(p.id).value <= number
  }

  lemma CounterStep(list: seq<PersistedSource>, start: u64)
    requires list != []
    ensures var before, counter, last := CounterFor(list[..|list| - 1], start), CounterFor(list, start), list[|list| - 1];
            && before <= counter && CarriesAtMost(last, counter)
            && (counter == before || Carries(last, counter))
  {
  }

  predicate AllCarryAtMost(list: seq<PersistedSource>, number: nat) {
    forall i :: 0 <= i < |list| ==> CarriesAtMost(list[i], number)
  }

  predicate SomeCarries(list: seq<PersistedSource>, number: nat) {
    exists i :: 0 <= i < |list| && Carries(list[i], number)
  }

  lemma OneMoreCarries(list: seq<PersistedSource>, before: nat, number: nat)
    requires list != [] && before <= number && AllCarryAtMost(list[..|list| - 1], before)
    requires CarriesAtMost(list[|list| - 1], number)
    ensures AllCarryAtMost(list, number)
    ensures Carries(list[|list| - 1], number) || SomeCarries(list[..|list| - 1], number) ==> SomeCarries(list, number)
  {
    forall i | 0 <= i < |list| - 1
      ensures CarriesAtMost(list[i], number)
    {
      assert CarriesAtMost(list[..|list| - 1][i], before);
    }
    if SomeCarries(list[..|list| - 1], number) {
      var i :| 0 <= i < |list| - 1 && Carries(list[..|list| - 1][i], number);
      assert Carries(list[i], number);
    }
  }

  /** The counter is the one in the header, or the largest number of an id beyond it. */
  lemma {:induction false} CounterIsLargest(list: seq<PersistedSource>, start: u64)
    ensures start <= CounterFor(list, start) && AllCarryAtMost(list, CounterFor(list, start))
    ensures CounterFor(list, start) == start || SomeCarries(list, CounterFor(list, start))
  {
    if list != [] {
      CounterIsLargest(list[..|list| - 1], start);
      CounterStep(list, start);
      OneMoreCarries(list, CounterFor(list[..|list| - 1], start), CounterFor(list, start));
    }
  }

  // ----- loading what was loaded -----

  lemma {:induction false} ManyIds(list: seq<PersistedSource>, ids: set<Text>)
    requires forall id :: id in ids ==> exists i :: 0 <= i < |list| && list[i].id == id
    ensures |ids| <= |list|
  {
    if list == [] {
      assert ids == {};
    } else {
      var before, last := list[..|list| - 1], list[|list| - 1];
      forall id | id in ids - {last.id}
        ensures exists i :: 0 <= i < |before| && before[i].id == id
      {
        var i :| 0 <= i < |list| && list[i].id == id;
        assert before[i].id == id;
      }
      ManyIds(before, ids - {last.id});
    }
  }

  lemma NamespaceIsUtf8(lines: seq<Text>, n: nat, namespace: Text)
    requires n <= |lines| && NamespaceSays(lines, n, namespace) && namespace != []
    ensures ValidUtf8(namespace)
  {
    var i :| 0 <= i < n && KeyOf(lines[i]) == NAMESPACE;
  }

  lemma EntryIsUtf8(fields: seq<Text>, p: PersistedSource, r: SourceRecord)
    requires EntrySays(fields, p) && IsRestored(p, r)
    ensures AllUtf8(p.id, r)
  {
  }

  lemma EntriesAreUtf8(lines: seq<Text>, list: seq<PersistedSource>, entries: Entries, id: Text)
    requires EntriesSay(lines, list) && AreRestorable(list) && RestoresTo(list, entries) && id in entries
    ensures AllUtf8(id, entries[id]) && !IsBlank(id)
  {
    var i :| 0 <= i < |list| && list[i].id == id;
    assert EntrySaysAt(lines, list, i);
    EntryIsUtf8(Parts(lines[i]), list[i], entries[id]);
    assert IsRestorable(list[i]);
  }

  lemma LoadedIsPrintable(body: Text, image: Image)
    requires ReadImage(body) == Some(image) && FromImage(image).Ok?
    ensures Printable(FromImage(image).value)
  {
    var s, lines := FromImage(image).value, WithoutBlanks(Lines(body));
    ImageReadsIff(body, image);
    LoadsIff(image);
    var n: nat :| IsImage(lines, n, image);
    ManyIds(image.entries, s.entries.Keys);
    NamespaceIsUtf8(lines, n, s.namespace);
    forall id | id in s.entries
      ensures AllUtf8(id, s.entries[id]) && !IsBlank(id)
    {
      EntriesAreUtf8(lines[n + 1..], image.entries, s.entries, id);
    }
  }

  /** Whatever file a registry was loaded from, persisting it and loading it again gives it back. */
  lemma LoadedReloads(body: Text, image: Image, order: seq<Text>)
    requires ReadImage(body) == Some(image) && FromImage(image).Ok?
    requires Enumerates(order, FromImage(image).value.entries)
    ensures var s := FromImage(image).value;
            && ReadImage(PrintRegistry(s, order)).Some?
            && FromImage(ReadImage(PrintRegistry(s, order)).value) == Ok(s)
  {
    LoadedIsPrintable(body, image);
    LoadedIsSound(image);
    ReloadIff(FromImage(image).value, order);
  }
}
