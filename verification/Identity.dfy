/**
 What one list of observations makes of the identity registry
 (crates/resonance-agent/src/identity.rs).

 An entry is stored under its own source id, so the record does not repeat it.
 */
module Identity {
  import opened Base
  import opened Texts

  datatype Evidence = Evidence(backendKey: Text, token: Text)

  datatype RetiredReason = NativeKeyReuse | AmbiguousReturn | MigrationCorruption | NamespaceReset

  datatype SourceState = Live | Absent | Retired(reason: RetiredReason)

  datatype SourceRecord = SourceRecord(evidence: Evidence, displayName: Text, state: SourceState) {
    predicate IsOpen() {
      !state.Retired?
    }

    predicate Owns(e: Evidence) {
      IsOpen() && evidence == e
    }
  }

  datatype Continuity = Stable(evidence: Evidence) | Ambiguous(candidates: seq<Evidence>) | UnknownContinuity

  datatype Observation = Observation(displayName: Text, continuity: Continuity)

  type Entries = map<Text, SourceRecord>

  predicate BothOpen(a: SourceRecord, b: SourceRecord) {
    a.IsOpen() && b.IsOpen() && a.evidence == b.evidence
  }

  const ALLOCATION_TRIES: nat := 4096

  /** No two entries that are not retired stand for the same evidence. */
  ghost predicate AtMostOneOpen(entries: Entries) {
    forall a, b :: a in entries && b in entries ==> !BothOpen(entries[a], entries[b]) || a == b
  }

  predicate HasOpen(entries: Entries, e: Evidence) {
    exists id :: id in entries && entries[id].Owns(e)
  }

  predicate HasLive(entries: Entries, e: Evidence) {
    exists id :: id in entries && entries[id].state.Live? && entries[id].evidence == e
  }

  /** The open entry for some evidence. */
  function OpenId(entries: Entries, e: Evidence): (id: Text)
    requires AtMostOneOpen(entries) && HasOpen(entries, e)
    ensures id in entries && entries[id].Owns(e)
  {
    var id :| id in entries && entries[id].Owns(e);
    id
  }

  function SourceIdForContinuity(entries: Entries, e: Evidence): Option<Text>
    requires AtMostOneOpen(entries)
  {
    if HasOpen(entries, e) then Some(OpenId(entries, e)) else None
  }

  function Observed(list: seq<Observation>): set<Evidence> {
    set o | o in list && o.continuity.Stable? :: o.continuity.evidence
  }

  function MarkedAbsent(record: SourceRecord, observed: set<Evidence>): SourceRecord {
    if record.state.Live? && record.evidence !in observed then record.(state := Absent) else record
  }

  function MarkAbsent(entries: Entries, observed: set<Evidence>): Entries {
    map id | id in entries :: MarkedAbsent(entries[id], observed)
  }

  function RetireIn(entries: Entries, ids: set<Text>, reason: RetiredReason): Entries {
    map id | id in entries ::
      if id in ids && entries[id].IsOpen() then entries[id].(state := Retired(reason)) else entries[id]
  }

  /** Entries on the same native key whose own evidence is gone. */
  function ReuseCandidates(entries: Entries, e: Evidence, observed: set<Evidence>): set<Text> {
    set id | id in entries && entries[id].IsOpen() && entries[id].evidence != e
             && entries[id].evidence.backendKey == e.backendKey && entries[id].evidence !in observed
  }

  function AmbiguousIds(entries: Entries, candidates: seq<Evidence>): set<Text> {
    set id | id in entries && entries[id].IsOpen() && entries[id].evidence in candidates
  }

  // ----- allocation -----

  datatype Allocated = Allocated(sequence: u64, id: Option<Text>)

  /** Sequence numbers are spent until one makes an unused id; the counter saturates. */
  function Allocate(namespace: Text, entries: Entries, sequence: u64, tries: nat): Allocated
    decreases tries
  {
    if tries == 0 then Allocated(sequence, None)
    else
      var next := Min(sequence + 1, U64_MAX);
      if SourceIdText(namespace, next) in entries then Allocate(namespace, entries, next, tries - 1)
      else Allocated(next, Some(SourceIdText(namespace, next)))
  }

  /** Every numbered id was numbered no later than the counter. */
  ghost predicate SequenceCovers(entries: Entries, sequence: nat) {
    forall id :: id in entries ==> ParseSequence(id).None? || ParseSequence(id).value <= sequence
  }

  /** The first number tried is always unused. */
  lemma AllocatesAtOnce(namespace: Text, entries: Entries, sequence: u64, tries: nat)
    requires SequenceCovers(entries, sequence) && sequence < U64_MAX && tries > 0
    ensures Allocate(namespace, entries, sequence, tries)
         == Allocated(sequence + 1, Some(SourceIdText(namespace, sequence + 1)))
  {
    SequenceReadsBack(namespace, sequence + 1);
  }

  lemma {:induction false} AllocatesUnused(namespace: Text, entries: Entries, sequence: u64, tries: nat)
    ensures var a := Allocate(namespace, entries, sequence, tries);
            && sequence <= a.sequence
            && (a.id.Some? ==> a.id.value !in entries && a.id.value == SourceIdText(namespace, a.sequence))
    decreases tries
  {
    if tries > 0 {
      AllocatesUnused(namespace, entries, Min(sequence + 1, U64_MAX), tries - 1);
    }
  }

  // ----- one observation -----

  datatype Work = Work(entries: Entries, sequence: u64, changed: bool)

  /** `ok` is false when no id could be taken; the work done so far remains. */
  datatype Applied = Applied(work: Work, ok: bool)

  function ApplyKnown(w: Work, id: Text, displayName: Text): Work
    requires id in w.entries
  {
    if w.entries[id].state.Live? && w.entries[id].displayName == displayName then w
    else w.(entries := w.entries[id := w.entries[id].(state := Live, displayName := displayName)], changed := true)
  }

  function ApplyNew(namespace: Text, observed: set<Evidence>, w: Work, e: Evidence, displayName: Text): Applied {
    var reused := ReuseCandidates(w.entries, e, observed);
    var entries := if |reused| == 1 then RetireIn(w.entries, reused, NativeKeyReuse) else w.entries;
    var taken := Allocate(namespace, entries, w.sequence, ALLOCATION_TRIES);
    match taken.id
    case None => Applied(Work(entries, taken.sequence, w.changed), false)
    case Some(id) =>
      Applied(Work(entries[id := SourceRecord(e, displayName, Live)], taken.sequence, true), true)
  }

  function ApplyAmbiguous(w: Work, candidates: seq<Evidence>): Work {
    var ids := AmbiguousIds(w.entries, candidates);
    if ids == {} then w else w.(entries := RetireIn(w.entries, ids, AmbiguousReturn), changed := true)
  }

  function ApplyOne(namespace: Text, observed: set<Evidence>, w: Work, o: Observation): Applied
    requires AtMostOneOpen(w.entries)
  {
    match o.continuity
    case Stable(e) =>
      if HasOpen(w.entries, e) then Applied(ApplyKnown(w, OpenId(w.entries, e), o.displayName), true)
      else ApplyNew(namespace, observed, w, e, o.displayName)
    case Ambiguous(candidates) => Applied(ApplyAmbiguous(w, candidates), true)
    case UnknownContinuity => Applied(w, true)
  }

  // ----- what one observation keeps -----

  /** Ids stay, keep their evidence, and once retired never change again. */
  ghost predicate Keeps(entries: Entries, later: Entries) {
    forall id :: id in entries ==>
      && id in later && later[id].evidence == entries[id].evidence
      && (!entries[id].IsOpen() ==> later[id] == entries[id])
  }

  lemma KeepsTransitive(a: Entries, b: Entries, c: Entries)
    requires Keeps(a, b) && Keeps(b, c)
    ensures Keeps(a, c)
  {
  }

  lemma RetiringKeeps(entries: Entries, ids: set<Text>, reason: RetiredReason)
    ensures Keeps(entries, RetireIn(entries, ids, reason))
    ensures AtMostOneOpen(entries) ==> AtMostOneOpen(RetireIn(entries, ids, reason))
    ensures RetireIn(entries, ids, reason).Keys == entries.Keys
  {
  }

  lemma InsertingKeeps(entries: Entries, id: Text, record: SourceRecord)
    requires AtMostOneOpen(entries) && id !in entries && !HasOpen(entries, record.evidence)
    ensures Keeps(entries, entries[id := record]) && AtMostOneOpen(entries[id := record])
  {
  }

  lemma UpdatingKeeps(entries: Entries, id: Text, record: SourceRecord)
    requires AtMostOneOpen(entries) && id in entries && entries[id].IsOpen()
    requires record.evidence == entries[id].evidence
    ensures Keeps(entries, entries[id := record]) && AtMostOneOpen(entries[id := record])
  {
  }

  /** Retiring one entry for other evidence does not open any. */
  lemma ReuseLeavesUnowned(entries: Entries, e: Evidence, ids: set<Text>)
    requires !HasOpen(entries, e)
    ensures !HasOpen(RetireIn(entries, ids, NativeKeyReuse), e)
  {
  }

  ghost predicate StepKeeps(w: Work, next: Work) {
    && Keeps(w.entries, next.entries) && AtMostOneOpen(next.entries)
    && w.sequence <= next.sequence && (w.changed ==> next.changed)
  }

  lemma NewKeeps(namespace: Text, observed: set<Evidence>, w: Work, e: Evidence, displayName: Text)
    requires AtMostOneOpen(w.entries) && !HasOpen(w.entries, e)
    ensures StepKeeps(w, ApplyNew(namespace, observed, w, e, displayName).work)
  {
    var reused := ReuseCandidates(w.entries, e, observed);
    var entries := if |reused| == 1 then RetireIn(w.entries, reused, NativeKeyReuse) else w.entries;
    RetiringKeeps(w.entries, reused, NativeKeyReuse);
    ReuseLeavesUnowned(w.entries, e, reused);
    AllocatesUnused(namespace, entries, w.sequence, ALLOCATION_TRIES);
    var taken := Allocate(namespace, entries, w.sequence, ALLOCATION_TRIES);
    if taken.id.Some? {
      InsertingKeeps(entries, taken.id.value, SourceRecord(e, displayName, Live));
    }
  }

  lemma OneKeeps(namespace: Text, observed: set<Evidence>, w: Work, o: Observation)
    requires AtMostOneOpen(w.entries)
    ensures StepKeeps(w, ApplyOne(namespace, observed, w, o).work)
  {
    match o.continuity
    case Stable(e) =>
      if HasOpen(w.entries, e) {
        var id := OpenId(w.entries, e);
        UpdatingKeeps(w.entries, id, w.entries[id].(state := Live, displayName := o.displayName));
      } else {
        NewKeeps(namespace, observed, w, e, o.displayName);
      }
    case Ambiguous(candidates) =>
      RetiringKeeps(w.entries, AmbiguousIds(w.entries, candidates), AmbiguousReturn);
    case UnknownContinuity =>
  }

  // ----- a list of observations -----

  function ApplyAll(namespace: Text, observed: set<Evidence>, w: Work, list: seq<Observation>): (r: Applied)
    requires AtMostOneOpen(w.entries)
    ensures StepKeeps(w, r.work)
  {
    if list == [] then Applied(w, true)
    else
      var before := ApplyAll(namespace, observed, w, list[..|list| - 1]);
      if !before.ok then before
      else
        OneKeeps(namespace, observed, before.work, list[|list| - 1]);
        var after := ApplyOne(namespace, observed, before.work, list[|list| - 1]);
        KeepsTransitive(w.entries, before.work.entries, after.work.entries);
        after
  }

  lemma MarkingKeeps(entries: Entries, observed: set<Evidence>)
    ensures Keeps(entries, MarkAbsent(entries, observed))
    ensures AtMostOneOpen(entries) ==> AtMostOneOpen(MarkAbsent(entries, observed))
    ensures MarkAbsent(entries, observed).Keys == entries.Keys
  {
  }

  /** The registry as it stands in memory. */
  datatype Registry = Registry(namespace: Text, revision: u64, nextSequence: u64, entries: Entries) {
    ghost predicate Sound() {
      AtMostOneOpen(entries)
    }
  }

  /** Entries whose live evidence is gone become absent before any observation is looked at. */
  function Begin(s: Registry, list: seq<Observation>): Work {
    var marked := MarkAbsent(s.entries, Observed(list));
    Work(marked, s.nextSequence, marked != s.entries)
  }

  /** What a list makes of the entries and the counter, before the revision is settled. */
  function Reconcile(s: Registry, list: seq<Observation>): (r: Applied)
    requires s.Sound()
    ensures AtMostOneOpen(r.work.entries) && Keeps(s.entries, r.work.entries)
  {
    MarkingKeeps(s.entries, Observed(list));
    var r := ApplyAll(s.namespace, Observed(list), Begin(s, list), list);
    KeepsTransitive(s.entries, Begin(s, list).entries, r.work.entries);
    r
  }

  function Saturating(revision: u64): u64 {
    Min(revision + 1, U64_MAX)
  }

  /** The registry after a list: a change takes a new revision; a failed allocation takes none. */
  function Refreshed(s: Registry, list: seq<Observation>): (r: Registry)
    requires s.Sound()
    ensures r.Sound()
  {
    var applied := Reconcile(s, list);
    Registry(s.namespace, if applied.ok && applied.work.changed then Saturating(s.revision) else s.revision,
             applied.work.sequence, applied.work.entries)
  }
}
