/** What refreshing keeps, for one list of observations and for any sequence of refreshes in one namespace. */
module IdentityRuns {
  import opened Base
  import opened Identity
  import opened Texts

  // ----- allocation never fails below saturation -----

  lemma OneAllocates(namespace: Text, observed: set<Evidence>, w: Work, o: Observation)
    requires AtMostOneOpen(w.entries) && SequenceCovers(w.entries, w.sequence)
    ensures var applied := ApplyOne(namespace, observed, w, o);
            && SequenceCovers(applied.work.entries, applied.work.sequence)
            && (w.sequence < U64_MAX ==> applied.ok && applied.work.sequence <= w.sequence + 1)
  {
    if o.continuity.Stable? && !HasOpen(w.entries, o.continuity.evidence) {
      NewAllocates(namespace, observed, w, o.continuity.evidence, o.displayName);
    }
  }

  lemma NewAllocates(namespace: Text, observed: set<Evidence>, w: Work, e: Evidence, displayName: Text)
    requires SequenceCovers(w.entries, w.sequence)
    ensures var applied := ApplyNew(namespace, observed, w, e, displayName);
            && SequenceCovers(applied.work.entries, applied.work.sequence)
            && (w.sequence < U64_MAX ==> applied.ok && applied.work.sequence == w.sequence + 1)
  {
    var reused := ReuseCandidates(w.entries, e, observed);
    var entries := if |reused| == 1 then RetireIn(w.entries, reused, NativeKeyReuse) else w.entries;
    RetiringKeeps(w.entries, reused, NativeKeyReuse);
    assert entries.Keys == w.entries.Keys;
    assert SequenceCovers(entries, w.sequence);
    AllocatesUnused(namespace, entries, w.sequence, ALLOCATION_TRIES);
    var taken := Allocate(namespace, entries, w.sequence, ALLOCATION_TRIES);
    SequenceReadsBack(namespace, taken.sequence);
    if w.sequence < U64_MAX {
      AllocatesAtOnce(namespace, entries, w.sequence, ALLOCATION_TRIES);
    }
  }

  lemma {:induction false} AllAllocate(namespace: Text, observed: set<Evidence>, w: Work, list: seq<Observation>)
    requires AtMostOneOpen(w.entries) && SequenceCovers(w.entries, w.sequence)
    ensures var applied := ApplyAll(namespace, observed, w, list);
            && SequenceCovers(applied.work.entries, applied.work.sequence)
            && (w.sequence + |list| <= U64_MAX ==> applied.ok && applied.work.sequence <= w.sequence + |list|)
  {
    if list != [] {
      AllAllocate(namespace, observed, w, list[..|list| - 1]);
      OneAllocates(namespace, observed, ApplyAll(namespace, observed, w, list[..|list| - 1]).work, list[|list| - 1]);
    }
  }

  /** Below saturation a refresh never runs out of ids, and every id stays covered by the counter. */
  lemma RefreshAllocates(s: Registry, list: seq<Observation>)
    requires s.Sound() && SequenceCovers(s.entries, s.nextSequence)
    ensures SequenceCovers(Refreshed(s, list).entries, Refreshed(s, list).nextSequence)
    ensures s.nextSequence + |list| <= U64_MAX ==> Reconcile(s, list).ok
  {
    MarkingKeeps(s.entries, Observed(list));
    assert Begin(s, list).entries.Keys == s.entries.Keys;
    AllAllocate(s.namespace, Observed(list), Begin(s, list), list);
  }

  // ----- which evidence is live afterwards -----

  /** Whether the last item of the list that mentions this evidence reports it stable. */
  predicate LastSeenStable(list: seq<Observation>, e: Evidence) {
    list != [] &&
    match list[|list| - 1].continuity
    case Stable(seen) => seen == e || LastSeenStable(list[..|list| - 1], e)
    case Ambiguous(candidates) => e !in candidates && LastSeenStable(list[..|list| - 1], e)
    case UnknownContinuity => LastSeenStable(list[..|list| - 1], e)
  }

  /** Nothing is live that the list does not report stable somewhere. */
  ghost predicate LiveWithin(entries: Entries, observed: set<Evidence>) {
    forall id :: id in entries && entries[id].state.Live? ==> entries[id].evidence in observed
  }

  lemma KnownLive(w: Work, id: Text, displayName: Text, e: Evidence)
    requires id in w.entries && w.entries[id].IsOpen()
    ensures HasLive(ApplyKnown(w, id, displayName).entries, e) <==>
            e == w.entries[id].evidence || HasLive(w.entries, e)
  {
    var later := ApplyKnown(w, id, displayName).entries;
    if HasLive(w.entries, e) {
      var other :| other in w.entries && w.entries[other].state.Live? && w.entries[other].evidence == e;
      assert other in later && later[other].state.Live? && later[other].evidence == e;
    }
    if e == w.entries[id].evidence {
      assert id in later && later[id].state.Live? && later[id].evidence == e;
    }
  }

  lemma NewLive(namespace: Text, observed: set<Evidence>, w: Work, added: Evidence, displayName: Text, e: Evidence)
    requires LiveWithin(w.entries, observed)
    requires ApplyNew(namespace, observed, w, added, displayName).ok
    ensures HasLive(ApplyNew(namespace, observed, w, added, displayName).work.entries, e) <==>
            e == added || HasLive(w.entries, e)
  {
    var reused := ReuseCandidates(w.entries, added, observed);
    var entries := if |reused| == 1 then RetireIn(w.entries, reused, NativeKeyReuse) else w.entries;
    AllocatesUnused(namespace, entries, w.sequence, ALLOCATION_TRIES);
    var id := Allocate(namespace, entries, w.sequence, ALLOCATION_TRIES).id.value;
    var later := entries[id := SourceRecord(added, displayName, Live)];
    assert forall other :: other in w.entries && w.entries[other].state.Live? ==> other !in reused;
    if HasLive(w.entries, e) {
      var other :| other in w.entries && w.entries[other].state.Live? && w.entries[other].evidence == e;
      assert other in later && later[other].state.Live? && later[other].evidence == e;
    }
    if e == added {
      assert id in later && later[id].state.Live? && later[id].evidence == e;
    }
  }

  lemma AmbiguousLive(w: Work, candidates: seq<Evidence>, e: Evidence)
    ensures HasLive(ApplyAmbiguous(w, candidates).entries, e) <==> e !in candidates && HasLive(w.entries, e)
  {
    var later := ApplyAmbiguous(w, candidates).entries;
    assert forall id :: id in w.entries && w.entries[id].IsOpen() && w.entries[id].evidence in candidates ==>
                          id in AmbiguousIds(w.entries, candidates);
    if HasLive(w.entries, e) && e !in candidates {
      var id :| id in w.entries && w.entries[id].state.Live? && w.entries[id].evidence == e;
      assert id in later && later[id].state.Live? && later[id].evidence == e;
    }
  }

  lemma OneLive(namespace: Text, observed: set<Evidence>, w: Work, o: Observation, e: Evidence)
    requires AtMostOneOpen(w.entries) && LiveWithin(w.entries, observed)
    requires ApplyOne(namespace, observed, w, o).ok
    ensures HasLive(ApplyOne(namespace, observed, w, o).work.entries, e) <==>
            match o.continuity
            case Stable(seen) => e == seen || HasLive(w.entries, e)
            case Ambiguous(candidates) => e !in candidates && HasLive(w.entries, e)
            case UnknownContinuity => HasLive(w.entries, e)
  {
    match o.continuity
    case Stable(seen) =>
      if HasOpen(w.entries, seen) {
        KnownLive(w, OpenId(w.entries, seen), o.displayName, e);
      } else {
        NewLive(namespace, observed, w, seen, o.displayName, e);
      }
    case Ambiguous(candidates) => AmbiguousLive(w, candidates, e);
    case UnknownContinuity =>
  }

  lemma LiveWithinIff(entries: Entries, observed: set<Evidence>)
    ensures LiveWithin(entries, observed) <==> forall e :: HasLive(entries, e) ==> e in observed
  {
    if forall e :: HasLive(entries, e) ==> e in observed {
      forall id | id in entries && entries[id].state.Live?
        ensures entries[id].evidence in observed
      {
        assert HasLive(entries, entries[id].evidence);
      }
    }
  }

  lemma OneLiveWithin(namespace: Text, observed: set<Evidence>, w: Work, o: Observation)
    requires AtMostOneOpen(w.entries) && LiveWithin(w.entries, observed)
    requires o.continuity.Stable? ==> o.continuity.evidence in observed
    requires ApplyOne(namespace, observed, w, o).ok
    ensures LiveWithin(ApplyOne(namespace, observed, w, o).work.entries, observed)
  {
    var later := ApplyOne(namespace, observed, w, o).work.entries;
    LiveWithinIff(w.entries, observed);
    forall e | HasLive(later, e)
      ensures e in observed
    {
      OneLive(namespace, observed, w, o, e);
    }
    LiveWithinIff(later, observed);
  }

  lemma {:induction false} AllLive(
    namespace: Text, observed: set<Evidence>, w: Work, list: seq<Observation>, e: Evidence)
    requires AtMostOneOpen(w.entries) && LiveWithin(w.entries, observed) && Observed(list) <= observed
    requires ApplyAll(namespace, observed, w, list).ok
    ensures LiveWithin(ApplyAll(namespace, observed, w, list).work.entries, observed)
    ensures HasLive(ApplyAll(namespace, observed, w, list).work.entries, e) <==>
            LastSeenStable(list, e) || (HasLive(w.entries, e) && NeverAmbiguous(list, e))
  {
    if list != [] {
      var before, o := list[..|list| - 1], list[|list| - 1];
      assert Observed(before) <= Observed(list);
      assert o in list;
      AllLive(namespace, observed, w, before, e);
      OneLive(namespace, observed, ApplyAll(namespace, observed, w, before).work, o, e);
      OneLiveWithin(namespace, observed, ApplyAll(namespace, observed, w, before).work, o);
      NeverAmbiguousStep(before, o, e);
      assert list == before + [o];
    }
  }

  predicate NeverAmbiguous(list: seq<Observation>, e: Evidence) {
    forall k :: 0 <= k < |list| ==> !list[k].continuity.Ambiguous? || e !in list[k].continuity.candidates
  }

  lemma NeverAmbiguousStep(list: seq<Observation>, o: Observation, e: Evidence)
    ensures NeverAmbiguous(list + [o], e) <==>
            NeverAmbiguous(list, e) && (!o.continuity.Ambiguous? || e !in o.continuity.candidates)
  {
    if NeverAmbiguous(list + [o], e) {
      assert forall k :: 0 <= k < |list| ==> (list + [o])[k] == list[k];
      assert (list + [o])[|list|] == o;
    }
  }

  /** Evidence that is seen but never ambiguous was last seen stable. */
  lemma {:induction false} SeenIsLastSeen(list: seq<Observation>, e: Evidence)
    requires NeverAmbiguous(list, e)
    ensures LastSeenStable(list, e) <==> e in Observed(list)
  {
    if list != [] {
      var before, o := list[..|list| - 1], list[|list| - 1];
      assert list == before + [o];
      NeverAmbiguousStep(before, o, e);
      SeenIsLastSeen(before, e);
      if e in Observed(list) {
        var seen :| seen in list && seen.continuity.Stable? && seen.continuity.evidence == e;
        assert seen in before || seen == o;
      }
      if e in Observed(before) {
        var seen :| seen in before && seen.continuity.Stable? && seen.continuity.evidence == e;
        assert seen in list;
      }
      assert o in list;
    }
  }

  lemma {:induction false} LastSeenIsSeen(list: seq<Observation>, e: Evidence)
    requires LastSeenStable(list, e)
    ensures e in Observed(list)
  {
    var before, o := list[..|list| - 1], list[|list| - 1];
    assert o in list;
    if !(o.continuity.Stable? && o.continuity.evidence == e) {
      LastSeenIsSeen(before, e);
      var seen :| seen in before && seen.continuity.Stable? && seen.continuity.evidence == e;
      assert seen in list;
    }
  }

  /** Open entries for this evidence, if any, are live. */
  ghost predicate OpenIsLive(entries: Entries, e: Evidence) {
    forall id :: id in entries && entries[id].Owns(e) ==> entries[id].state.Live?
  }

  lemma OneOpenIsLive(namespace: Text, observed: set<Evidence>, w: Work, o: Observation, e: Evidence)
    requires AtMostOneOpen(w.entries)
    requires OpenIsLive(w.entries, e) || o.continuity == Stable(e)
    requires ApplyOne(namespace, observed, w, o).ok
    ensures OpenIsLive(ApplyOne(namespace, observed, w, o).work.entries, e)
  {
    var later := ApplyOne(namespace, observed, w, o).work.entries;
    OneKeeps(namespace, observed, w, o);
    if o.continuity.Stable? {
      OneBecomesQuiet(namespace, observed, w, o);
      var id :| id in later && later[id].Owns(o.continuity.evidence) && later[id].state.Live?;
      forall other | other in later && later[other].Owns(e)
        ensures later[other].state.Live?
      {
        if o.continuity == Stable(e) {
          assert BothOpen(later[id], later[other]);
        } else {
          UntouchedByOther(namespace, observed, w, o, other);
        }
      }
    }
  }

  /** A stable item changes no open entry for other evidence except by retiring it. */
  lemma UntouchedByOther(namespace: Text, observed: set<Evidence>, w: Work, o: Observation, id: Text)
    requires AtMostOneOpen(w.entries) && ApplyOne(namespace, observed, w, o).ok && o.continuity.Stable?
    requires id in ApplyOne(namespace, observed, w, o).work.entries
    requires ApplyOne(namespace, observed, w, o).work.entries[id].IsOpen()
    requires ApplyOne(namespace, observed, w, o).work.entries[id].evidence != o.continuity.evidence
    ensures id in w.entries && w.entries[id] == ApplyOne(namespace, observed, w, o).work.entries[id]
  {
    OneKeeps(namespace, observed, w, o);
  }

  /** After a list, open entries for evidence it reports stable are live. */
  lemma {:induction false} SeenOpenIsLive(
    namespace: Text, observed: set<Evidence>, w: Work, list: seq<Observation>, e: Evidence)
    requires AtMostOneOpen(w.entries) && ApplyAll(namespace, observed, w, list).ok
    requires e in Observed(list)
    ensures OpenIsLive(ApplyAll(namespace, observed, w, list).work.entries, e)
  {
    var before, o := list[..|list| - 1], list[|list| - 1];
    var seen :| seen in list && seen.continuity.Stable? && seen.continuity.evidence == e;
    assert list == before + [o];
    if o.continuity != Stable(e) {
      assert seen in before && e in Observed(before);
      SeenOpenIsLive(namespace, observed, w, before, e);
    }
    OneOpenIsLive(namespace, observed, ApplyAll(namespace, observed, w, before).work, o, e);
  }

  lemma MarkedIsWithin(entries: Entries, observed: set<Evidence>, e: Evidence)
    ensures LiveWithin(MarkAbsent(entries, observed), observed)
    ensures HasLive(MarkAbsent(entries, observed), e) <==> HasLive(entries, e) && e in observed
  {
    if HasLive(entries, e) && e in observed {
      var id :| id in entries && entries[id].state.Live? && entries[id].evidence == e;
      assert MarkAbsent(entries, observed)[id].state.Live?;
    }
  }

  /** After a refresh exactly the evidence last seen stable is live. */
  lemma RefreshedLive(s: Registry, list: seq<Observation>, e: Evidence)
    requires s.Sound() && Reconcile(s, list).ok
    ensures HasLive(Refreshed(s, list).entries, e) <==> LastSeenStable(list, e)
  {
    var observed := Observed(list);
    MarkingKeeps(s.entries, observed);
    MarkedIsWithin(s.entries, observed, e);
    AllLive(s.namespace, observed, Begin(s, list), list, e);
    if NeverAmbiguous(list, e) {
      SeenIsLastSeen(list, e);
    }
  }

  /** A list without ambiguous items makes exactly its stable evidence live. */
  lemma UnambiguousLive(s: Registry, list: seq<Observation>, e: Evidence)
    requires s.Sound() && Reconcile(s, list).ok
    requires forall o :: o in list ==> !o.continuity.Ambiguous?
    ensures HasLive(Refreshed(s, list).entries, e) <==> e in Observed(list)
  {
    RefreshedLive(s, list, e);
    SeenIsLastSeen(list, e);
  }

  // ----- which entries an item retires -----

  /** On the same native key as the new evidence, while its own evidence is gone. */
  predicate IsDisplaced(record: SourceRecord, e: Evidence, observed: set<Evidence>) {
    record.IsOpen() && record.evidence != e && record.evidence.backendKey == e.backendKey && record.evidence !in observed
  }

  predicate OnlyDisplaced(entries: Entries, id: Text, e: Evidence, observed: set<Evidence>)
    requires id in entries
  {
    && IsDisplaced(entries[id], e, observed)
    && forall other :: other in entries && IsDisplaced(entries[other], e, observed) ==> other == id
  }

  lemma SingletonIff<T>(s: set<T>, x: T)
    ensures |s| == 1 && x in s <==> x in s && forall y :: y in s ==> y == x
  {
    if x in s {
      assert |s - {x}| == |s| - 1;
      if forall y :: y in s ==> y == x {
        assert s == {x};
      }
      if |s| == 1 {
        assert s - {x} == {};
        forall y | y in s
          ensures y == x
        {
          assert y !in s - {x};
        }
      }
    }
  }

  /**
   An open entry is retired by an ambiguous item that names its evidence, or by new stable evidence
   when it is the only entry that evidence can have displaced; never otherwise.
   */
  lemma RetiredIff(namespace: Text, observed: set<Evidence>, w: Work, o: Observation, id: Text)
    requires AtMostOneOpen(w.entries) && id in w.entries && w.entries[id].IsOpen()
    ensures var later := ApplyOne(namespace, observed, w, o).work.entries;
            && id in later
            && (later[id].state == Retired(AmbiguousReturn) <==>
                o.continuity.Ambiguous? && w.entries[id].evidence in o.continuity.candidates)
            && (later[id].state == Retired(NativeKeyReuse) <==>
                && o.continuity.Stable? && !HasOpen(w.entries, o.continuity.evidence)
                && OnlyDisplaced(w.entries, id, o.continuity.evidence, observed))
            && (later[id].IsOpen() || later[id].state in {Retired(AmbiguousReturn), Retired(NativeKeyReuse)})
  {
    OneKeeps(namespace, observed, w, o);
    if o.continuity.Stable? && !HasOpen(w.entries, o.continuity.evidence) {
      NewRetiresIff(namespace, observed, w, o.continuity.evidence, o.displayName, id);
    } else if o.continuity.Ambiguous? {
      assert id in AmbiguousIds(w.entries, o.continuity.candidates) <==> w.entries[id].evidence in o.continuity.candidates;
    }
  }

  lemma NewRetiresIff(namespace: Text, observed: set<Evidence>, w: Work, e: Evidence, displayName: Text, id: Text)
    requires id in w.entries && w.entries[id].IsOpen()
    ensures var later := ApplyNew(namespace, observed, w, e, displayName).work.entries;
            && id in later
            && (later[id].IsOpen() || later[id].state == Retired(NativeKeyReuse))
            && (!later[id].IsOpen() <==> OnlyDisplaced(w.entries, id, e, observed))
  {
    var reused := ReuseCandidates(w.entries, e, observed);
    var entries := if |reused| == 1 then RetireIn(w.entries, reused, NativeKeyReuse) else w.entries;
    RetiringKeeps(w.entries, reused, NativeKeyReuse);
    AllocatesUnused(namespace, entries, w.sequence, ALLOCATION_TRIES);
    assert forall other :: other in reused <==> other in w.entries && IsDisplaced(w.entries[other], e, observed);
    SingletonIff(reused, id);
  }

  // ----- when refreshing again changes nothing -----

  /** The item finds the registry as it would leave it. */
  predicate IsQuiet(entries: Entries, o: Observation) {
    match o.continuity
    case Stable(e) =>
      exists id :: id in entries && entries[id].Owns(e) && entries[id].state.Live?
                   && entries[id].displayName == o.displayName
    case Ambiguous(candidates) => AmbiguousIds(entries, candidates) == {}
    case UnknownContinuity => true
  }

  predicate AllQuiet(entries: Entries, list: seq<Observation>) {
    forall k :: 0 <= k < |list| ==> IsQuiet(entries, list[k])
  }

  /** One item does not undo the other: equal evidence has one name, and is not ambiguous elsewhere. */
  predicate Agree(a: Observation, b: Observation) {
    match (a.continuity, b.continuity)
    case (Stable(e), Stable(f)) => e != f || a.displayName == b.displayName
    case (Stable(e), Ambiguous(candidates)) => e !in candidates
    case (Ambiguous(candidates), Stable(e)) => e !in candidates
    case (_, _) => true
  }

  predicate Settled(list: seq<Observation>) {
    forall i, j :: 0 <= i < |list| && 0 <= j < |list| ==> Agree(list[i], list[j])
  }

  lemma OneIsQuiet(namespace: Text, observed: set<Evidence>, w: Work, o: Observation)
    requires AtMostOneOpen(w.entries) && !w.changed
    requires ApplyOne(namespace, observed, w, o).ok
    ensures !ApplyOne(namespace, observed, w, o).work.changed <==> IsQuiet(w.entries, o)
    ensures IsQuiet(w.entries, o) ==> ApplyOne(namespace, observed, w, o).work == w
  {
    if o.continuity.Stable? && IsQuiet(w.entries, o) {
      var id :| id in w.entries && w.entries[id].Owns(o.continuity.evidence) && w.entries[id].state.Live?
                && w.entries[id].displayName == o.displayName;
      assert HasOpen(w.entries, o.continuity.evidence);
      assert BothOpen(w.entries[id], w.entries[OpenId(w.entries, o.continuity.evidence)]);
    }
  }

  lemma {:induction false} AllAreQuiet(namespace: Text, observed: set<Evidence>, w: Work, list: seq<Observation>)
    requires AtMostOneOpen(w.entries) && !w.changed
    requires ApplyAll(namespace, observed, w, list).ok
    ensures !ApplyAll(namespace, observed, w, list).work.changed <==> AllQuiet(w.entries, list)
    ensures AllQuiet(w.entries, list) ==> ApplyAll(namespace, observed, w, list).work == w
  {
    if list != [] {
      var before, o := list[..|list| - 1], list[|list| - 1];
      AllAreQuiet(namespace, observed, w, before);
      var work := ApplyAll(namespace, observed, w, before).work;
      assert AllQuiet(w.entries, list) <==> AllQuiet(w.entries, before) && IsQuiet(w.entries, o);
      if !work.changed {
        OneIsQuiet(namespace, observed, work, o);
      } else {
        OneKeeps(namespace, observed, work, o);
      }
    }
  }

  /** A refresh leaves everything alone exactly when every item finds what it would leave and nothing live is missing. */
  lemma UnchangedIff(s: Registry, list: seq<Observation>)
    requires s.Sound() && Reconcile(s, list).ok
    ensures !Reconcile(s, list).work.changed <==> LiveWithin(s.entries, Observed(list)) && AllQuiet(s.entries, list)
    ensures !Reconcile(s, list).work.changed ==> Refreshed(s, list) == s
  {
    var observed := Observed(list);
    MarkingKeeps(s.entries, observed);
    assert LiveWithin(s.entries, observed) <==> MarkAbsent(s.entries, observed) == s.entries by {
      if MarkAbsent(s.entries, observed) == s.entries {
        forall id | id in s.entries && s.entries[id].state.Live?
          ensures s.entries[id].evidence in observed
        {
          assert MarkAbsent(s.entries, observed)[id] == s.entries[id];
        }
      }
    }
    if !Begin(s, list).changed {
      AllAreQuiet(s.namespace, observed, Begin(s, list), list);
    }
  }

  lemma QuietIsSettled(entries: Entries, list: seq<Observation>)
    requires AtMostOneOpen(entries) && AllQuiet(entries, list)
    ensures Settled(list)
  {
    forall i, j | 0 <= i < |list| && 0 <= j < |list|
      ensures Agree(list[i], list[j])
    {
      assert IsQuiet(entries, list[i]) && IsQuiet(entries, list[j]);
      QuietAgree(entries, list[i], list[j]);
    }
  }

  lemma QuietAgree(entries: Entries, a: Observation, b: Observation)
    requires AtMostOneOpen(entries) && IsQuiet(entries, a) && IsQuiet(entries, b)
    ensures Agree(a, b)
  {
    if a.continuity.Stable? {
      var id :| id in entries && entries[id].Owns(a.continuity.evidence) && entries[id].displayName == a.displayName;
      assert b.continuity.Ambiguous? ==> id !in AmbiguousIds(entries, b.continuity.candidates);
      if b.continuity.Stable? {
        var other :| other in entries && entries[other].Owns(b.continuity.evidence)
                     && entries[other].displayName == b.displayName;
        assert a.continuity.evidence == b.continuity.evidence ==> BothOpen(entries[id], entries[other]);
      }
    } else if a.continuity.Ambiguous? && b.continuity.Stable? {
      var id :| id in entries && entries[id].Owns(b.continuity.evidence);
      assert id !in AmbiguousIds(entries, a.continuity.candidates);
    }
  }

  /** An item is quiet right after it was applied. */
  lemma OneBecomesQuiet(namespace: Text, observed: set<Evidence>, w: Work, o: Observation)
    requires AtMostOneOpen(w.entries) && ApplyOne(namespace, observed, w, o).ok
    ensures IsQuiet(ApplyOne(namespace, observed, w, o).work.entries, o)
  {
    var later := ApplyOne(namespace, observed, w, o).work.entries;
    match o.continuity
    case Stable(e) =>
      if HasOpen(w.entries, e) {
        assert later[OpenId(w.entries, e)].Owns(e);
      } else {
        NewIsQuiet(namespace, observed, w, e, o.displayName);
      }
    case Ambiguous(candidates) =>
      assert forall id :: id in w.entries && id in AmbiguousIds(w.entries, candidates) ==> !later[id].IsOpen();
      assert AmbiguousIds(later, candidates) == {};
    case UnknownContinuity =>
  }

  lemma NewIsQuiet(namespace: Text, observed: set<Evidence>, w: Work, e: Evidence, displayName: Text)
    requires ApplyNew(namespace, observed, w, e, displayName).ok
    ensures IsQuiet(ApplyNew(namespace, observed, w, e, displayName).work.entries, Observation(displayName, Stable(e)))
  {
    var reused := ReuseCandidates(w.entries, e, observed);
    var entries := if |reused| == 1 then RetireIn(w.entries, reused, NativeKeyReuse) else w.entries;
    var id := Allocate(namespace, entries, w.sequence, ALLOCATION_TRIES).id.value;
    var later := ApplyNew(namespace, observed, w, e, displayName).work.entries;
    assert id in later && later[id] == SourceRecord(e, displayName, Live);
  }

  /** Applying an item keeps quiet what agrees with it. */
  lemma OneKeepsQuiet(namespace: Text, observed: set<Evidence>, w: Work, o: Observation, earlier: Observation)
    requires AtMostOneOpen(w.entries) && ApplyOne(namespace, observed, w, o).ok
    requires IsQuiet(w.entries, earlier) && Agree(earlier, o)
    requires earlier.continuity.Stable? ==> earlier.continuity.evidence in observed
    ensures IsQuiet(ApplyOne(namespace, observed, w, o).work.entries, earlier)
  {
    var later := ApplyOne(namespace, observed, w, o).work.entries;
    if earlier.continuity.Stable? {
      var e := earlier.continuity.evidence;
      var id :| id in w.entries && w.entries[id].Owns(e) && w.entries[id].state.Live?
                && w.entries[id].displayName == earlier.displayName;
      EntrySurvives(namespace, observed, w, o, id);
      assert later[id] == w.entries[id];
    } else if earlier.continuity.Ambiguous? {
      NoneAppears(namespace, observed, w, o, earlier.continuity.candidates);
    }
  }

  /** A live entry that an item agrees with is left exactly as it is. */
  lemma EntrySurvives(namespace: Text, observed: set<Evidence>, w: Work, o: Observation, id: Text)
    requires AtMostOneOpen(w.entries) && ApplyOne(namespace, observed, w, o).ok
    requires id in w.entries && w.entries[id].state.Live? && w.entries[id].evidence in observed
    requires Agree(Observation(w.entries[id].displayName, Stable(w.entries[id].evidence)), o)
    ensures id in ApplyOne(namespace, observed, w, o).work.entries
    ensures ApplyOne(namespace, observed, w, o).work.entries[id] == w.entries[id]
  {
    if o.continuity.Stable? {
      var e := o.continuity.evidence;
      if HasOpen(w.entries, e) {
        assert w.entries[id].evidence == e ==> BothOpen(w.entries[id], w.entries[OpenId(w.entries, e)]);
      } else {
        var reused := ReuseCandidates(w.entries, e, observed);
        var entries := if |reused| == 1 then RetireIn(w.entries, reused, NativeKeyReuse) else w.entries;
        AllocatesUnused(namespace, entries, w.sequence, ALLOCATION_TRIES);
        assert id !in reused;
      }
    }
  }

  /** An item opens nothing among candidates it does not report stable. */
  lemma NoneAppears(namespace: Text, observed: set<Evidence>, w: Work, o: Observation, candidates: seq<Evidence>)
    requires AtMostOneOpen(w.entries)
    requires o.continuity.Stable? ==> o.continuity.evidence !in candidates
    ensures AmbiguousIds(ApplyOne(namespace, observed, w, o).work.entries, candidates)
         <= AmbiguousIds(w.entries, candidates)
  {
    OneKeeps(namespace, observed, w, o);
  }

  lemma {:induction false} SettledBecomesQuiet(
    namespace: Text, observed: set<Evidence>, w: Work, list: seq<Observation>)
    requires AtMostOneOpen(w.entries) && Settled(list) && Observed(list) <= observed
    requires ApplyAll(namespace, observed, w, list).ok
    ensures AllQuiet(ApplyAll(namespace, observed, w, list).work.entries, list)
  {
    if list != [] {
      var before, o := list[..|list| - 1], list[|list| - 1];
      assert Settled(before) by {
        forall i, j | 0 <= i < |before| && 0 <= j < |before|
          ensures Agree(before[i], before[j])
        {
          assert Agree(list[i], list[j]);
        }
      }
      assert Observed(before) <= Observed(list);
      SettledBecomesQuiet(namespace, observed, w, before);
      var work := ApplyAll(namespace, observed, w, before).work;
      OneBecomesQuiet(namespace, observed, work, o);
      forall k | 0 <= k < |list|
        ensures IsQuiet(ApplyOne(namespace, observed, work, o).work.entries, list[k])
      {
        if k < |before| {
          assert Agree(list[k], list[|list| - 1]) && before[k] in list;
          assert IsQuiet(work.entries, before[k]);
          OneKeepsQuiet(namespace, observed, work, o, list[k]);
        }
      }
    }
  }

  /** Applying a list twice is the same as applying it once exactly when its items agree with each other. */
  lemma ReapplyingIff(s: Registry, list: seq<Observation>)
    requires s.Sound() && SequenceCovers(s.entries, s.nextSequence)
    requires s.nextSequence + 2 * |list| <= U64_MAX && s.revision + 1 < U64_MAX
    ensures Refreshed(Refreshed(s, list), list) == Refreshed(s, list) <==> Settled(list)
  {
    var once := Refreshed(s, list);
    RefreshAllocates(s, list);
    RefreshCounts(s, list);
    RefreshAllocates(once, list);
    UnchangedIff(once, list);
    if Settled(list) {
      MarkingKeeps(s.entries, Observed(list));
      SettledBecomesQuiet(s.namespace, Observed(list), Begin(s, list), list);
      RefreshedWithin(s, list);
    } else if AllQuiet(once.entries, list) {
      QuietIsSettled(once.entries, list);
    }
  }

  lemma RefreshCounts(s: Registry, list: seq<Observation>)
    requires s.Sound() && SequenceCovers(s.entries, s.nextSequence) && s.nextSequence + |list| <= U64_MAX
    ensures Refreshed(s, list).nextSequence <= s.nextSequence + |list|
  {
    MarkingKeeps(s.entries, Observed(list));
    assert Begin(s, list).entries.Keys == s.entries.Keys;
    AllAllocate(s.namespace, Observed(list), Begin(s, list), list);
  }

  lemma RefreshedWithin(s: Registry, list: seq<Observation>)
    requires s.Sound() && Reconcile(s, list).ok
    ensures LiveWithin(Refreshed(s, list).entries, Observed(list))
  {
    var nowhere := Evidence([], []);
    MarkingKeeps(s.entries, Observed(list));
    MarkedIsWithin(s.entries, Observed(list), nowhere);
    AllLive(s.namespace, Observed(list), Begin(s, list), list, nowhere);
  }

  // ----- any sequence of refreshes -----

  datatype Transition = Observe(list: seq<Observation>) | Advance

  function After(s: Registry, t: Transition): Registry
    requires s.Sound()
  {
    match t
    case Observe(list) => Refreshed(s, list)
    case Advance => s.(revision := Saturating(s.revision))
  }

  ghost predicate IsRegistryRun(states: seq<Registry>, steps: seq<Transition>) {
    && |states| == |steps| + 1
    && states[0].Sound()
    && forall i :: 0 <= i < |steps| ==> states[i].Sound() && states[i + 1] == After(states[i], steps[i])
  }

  lemma StepHistory(s: Registry, t: Transition)
    requires s.Sound()
    ensures After(s, t).Sound() && Keeps(s.entries, After(s, t).entries)
    ensures s.revision <= After(s, t).revision && After(s, t).namespace == s.namespace
  {
  }

  /**
   Once issued, an id stays, stands for the same evidence forever, and once retired never comes
   back; so an id issued later was in use at no earlier time.
   */
  lemma {:induction false} IdsAreForever(states: seq<Registry>, steps: seq<Transition>, i: nat, j: nat)
    requires IsRegistryRun(states, steps) && i <= j <= |steps|
    ensures states[j].Sound() && Keeps(states[i].entries, states[j].entries)
    ensures states[i].namespace == states[j].namespace && states[i].revision <= states[j].revision
    decreases j
  {
    if i < j {
      IdsAreForever(states, steps, i, j - 1);
      StepHistory(states[j - 1], steps[j - 1]);
      KeepsTransitive(states[i].entries, states[j - 1].entries, states[j].entries);
    } else if i > 0 {
      StepHistory(states[i - 1], steps[i - 1]);
    }
  }

  /** The counters stay below the end of their type, and the first registry's counter covers its ids. */
  ghost predicate IsUnsaturated(states: seq<Registry>, steps: seq<Transition>)
    requires IsRegistryRun(states, steps)
  {
    && SequenceCovers(states[0].entries, states[0].nextSequence)
    && forall i :: 0 <= i < |steps| ==>
         && states[i].revision < U64_MAX
         && (steps[i].Observe? ==> states[i].nextSequence + |steps[i].list| <= U64_MAX)
  }

  lemma CounterStep(s: Registry, t: Transition)
    requires s.Sound() && SequenceCovers(s.entries, s.nextSequence)
    ensures SequenceCovers(After(s, t).entries, After(s, t).nextSequence)
  {
    if t.Observe? {
      RefreshAllocates(s, t.list);
    }
  }

  lemma {:induction false} CounterStepAt(states: seq<Registry>, steps: seq<Transition>, i: nat)
    requires IsRegistryRun(states, steps) && i < |steps| && SequenceCovers(states[i].entries, states[i].nextSequence)
    ensures SequenceCovers(states[i + 1].entries, states[i + 1].nextSequence)
  {
    CounterStep(states[i], steps[i]);
  }

  /** The counter covers every id at every moment, however the run goes. */
  lemma {:induction false} CounterCovers(states: seq<Registry>, steps: seq<Transition>, i: nat)
    requires IsRegistryRun(states, steps) && i <= |steps|
    requires SequenceCovers(states[0].entries, states[0].nextSequence)
    ensures SequenceCovers(states[i].entries, states[i].nextSequence)
  {
    if i > 0 {
      CounterCovers(states, steps, i - 1);
      CounterStepAt(states, steps, i - 1);
    }
  }

  lemma StepRevision(s: Registry, t: Transition)
    requires s.Sound() && SequenceCovers(s.entries, s.nextSequence)
    requires s.revision < U64_MAX && (t.Observe? ==> s.nextSequence + |t.list| <= U64_MAX)
    ensures After(s, t) == s || After(s, t).revision == s.revision + 1
  {
    if t.Observe? {
      RefreshAllocates(s, t.list);
      UnchangedIff(s, t.list);
    }
  }

  lemma {:induction false} StepRevisionAt(states: seq<Registry>, steps: seq<Transition>, j: nat)
    requires IsRegistryRun(states, steps) && IsUnsaturated(states, steps) && 0 < j <= |steps|
    ensures states[j] == states[j - 1] || states[j].revision == states[j - 1].revision + 1
  {
    IdsAreForever(states, steps, j - 1, j - 1);
    CounterCovers(states, steps, j - 1);
    StepRevision(states[j - 1], steps[j - 1]);
  }

  lemma {:induction false} RevisionNeverFalls(states: seq<Registry>, steps: seq<Transition>, i: nat, j: nat)
    requires IsRegistryRun(states, steps) && i <= j <= |steps|
    ensures states[i].revision <= states[j].revision
  {
    IdsAreForever(states, steps, i, j);
  }

  /**
   Below saturation a new revision is taken whenever anything changes: two moments of one run with
   the same revision have the same registry.
   */
  lemma {:induction false} RevisionIdentifiesState(states: seq<Registry>, steps: seq<Transition>, i: nat, j: nat)
    requires IsRegistryRun(states, steps) && IsUnsaturated(states, steps) && i <= j <= |steps|
    requires states[i].revision == states[j].revision
    ensures states[i] == states[j]
    decreases j
  {
    if i < j {
      RevisionNeverFalls(states, steps, i, j - 1);
      StepRevisionAt(states, steps, j);
      RevisionIdentifiesState(states, steps, i, j - 1);
    }
  }
}
