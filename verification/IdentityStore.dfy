/** The identity registry as the object that edits its entries in place. */
module IdentityStore {
  import opened Base
  import opened Identity
  import opened Texts

  datatype DiscoverySnapshot = DiscoverySnapshot(namespace: Text, revision: u64)

  datatype RegistryError =
    | Io
    | SnapshotStale(expected: u64, observed: u64)
    | UnknownSource
    | SourceUnavailable
    | SourceRetired
    | SourceIdAllocationFailed

  datatype KnownSource = KnownSource(displayName: Text, isAvailable: bool)

  function SnapshotOf(s: Registry): DiscoverySnapshot {
    DiscoverySnapshot(s.namespace, s.revision)
  }

  function Validated(s: Registry, snapshot: DiscoverySnapshot): Result<(), RegistryError> {
    Require(snapshot == SnapshotOf(s), SnapshotStale(s.revision, snapshot.revision))
  }

  /** Only a live entry resolves, and only against the current snapshot. */
  function Resolved(s: Registry, id: Text, snapshot: DiscoverySnapshot): Result<Text, RegistryError> {
    var _ :- Validated(s, snapshot);
    if id !in s.entries then Err(UnknownSource)
    else
      match s.entries[id].state
      case Live => Ok(id)
      case Absent => Err(SourceUnavailable)
      case Retired(_) => Err(SourceRetired)
  }

  function KnownSources(entries: Entries): map<Text, KnownSource> {
    map id | id in entries && entries[id].IsOpen() :: KnownSource(entries[id].displayName, entries[id].state.Live?)
  }

  /** A change is written out before it is reported; `persists` says whether writing succeeds. */
  function RefreshResult(s: Registry, list: seq<Observation>, persists: bool): Result<DiscoverySnapshot, RegistryError>
    requires s.Sound()
  {
    if !Reconcile(s, list).ok then Err(SourceIdAllocationFailed)
    else if Reconcile(s, list).work.changed && !persists then Err(Io)
    else Ok(SnapshotOf(Refreshed(s, list)))
  }

  predicate SameElements(listed: seq<Evidence>, observed: set<Evidence>) {
    (forall e :: e in listed ==> e in observed) && forall e :: e in observed ==> e in listed
  }

  lemma RetiringOneMore(entries: Entries, ids: set<Text>, id: Text, reason: RetiredReason)
    ensures RetireIn(RetireIn(entries, ids, reason), {id}, reason) == RetireIn(entries, ids + {id}, reason)
  {
  }

  class IdentityRegistry {
    var namespace: Text
    var revision: u64
    var nextSourceSequence: u64
    var entries: Entries

    function Value(): Registry
      reads this
    {
      Registry(namespace, revision, nextSourceSequence, entries)
    }

    constructor (image: Registry)
      ensures Value() == image
    {
      namespace, revision, nextSourceSequence, entries :=
        image.namespace, image.revision, image.nextSequence, image.entries;
    }

    method FindOpenSourceId(e: Evidence) returns (found: Option<Text>)
      requires AtMostOneOpen(entries)
      ensures found == SourceIdForContinuity(entries, e)
    {
      var left := entries.Keys;
      while left != {}
        invariant left <= entries.Keys
        invariant forall id :: id in entries && id !in left ==> !entries[id].Owns(e)
        decreases |left|
      {
        var id :| id in left;
        if entries[id].Owns(e) {
          assert HasOpen(entries, e) && BothOpen(entries[id], entries[OpenId(entries, e)]);
          return Some(id);
        }
        left := left - {id};
      }
      return None;
    }

    method Retire(id: Text, reason: RetiredReason)
      modifies `entries
      ensures entries == RetireIn(old(entries), {id}, reason)
    {
      if id in entries && entries[id].IsOpen() {
        entries := entries[id := entries[id].(state := Retired(reason))];
      }
    }

    method AllocateSourceId() returns (id: Option<Text>)
      modifies `nextSourceSequence
      ensures Allocate(namespace, entries, old(nextSourceSequence), ALLOCATION_TRIES) == Allocated(nextSourceSequence, id)
    {
      for i := 0 to ALLOCATION_TRIES
        invariant Allocate(namespace, entries, old(nextSourceSequence), ALLOCATION_TRIES)
               == Allocate(namespace, entries, nextSourceSequence, ALLOCATION_TRIES - i)
      {
        nextSourceSequence := Min(nextSourceSequence + 1, U64_MAX);
        var candidate := SourceIdText(namespace, nextSourceSequence);
        if candidate !in entries {
          return Some(candidate);
        }
      }
      return None;
    }

    /** Live entries whose evidence was not listed become absent. */
    method MarkUnobservedAbsent(listed: seq<Evidence>, ghost observed: set<Evidence>) returns (changed: bool)
      requires SameElements(listed, observed)
      modifies `entries
      ensures entries == MarkAbsent(old(entries), observed)
      ensures changed == (entries != old(entries))
    {
      changed := false;
      ghost var was := entries;
      var left := entries.Keys;
      while left != {}
        invariant left <= was.Keys == entries.Keys
        invariant forall id :: id in was ==>
          entries[id] == if id in left then was[id] else MarkedAbsent(was[id], observed)
        invariant changed == exists id :: id in was && id !in left && entries[id] != was[id]
        decreases |left|
      {
        var id :| id in left;
        if entries[id].state.Live? && entries[id].evidence !in listed {
          entries := entries[id := entries[id].(state := Absent)];
          changed := true;
          assert entries[id] != was[id];
        }
        left := left - {id};
      }
    }

    method FindReuseCandidates(e: Evidence, listed: seq<Evidence>, ghost observed: set<Evidence>)
      returns (found: set<Text>)
      requires SameElements(listed, observed)
      ensures found == ReuseCandidates(entries, e, observed)
    {
      found := {};
      var left := entries.Keys;
      while left != {}
        invariant left <= entries.Keys
        invariant forall id :: id in found <==> id !in left && id in ReuseCandidates(entries, e, observed)
        decreases |left|
      {
        var id :| id in left;
        if entries[id].IsOpen() && entries[id].evidence != e && entries[id].evidence.backendKey == e.backendKey
           && entries[id].evidence !in listed
        {
          found := found + {id};
        }
        left := left - {id};
      }
    }

    method InsertNew(e: Evidence, displayName: Text, listed: seq<Evidence>, ghost observed: set<Evidence>, changed: bool)
      returns (nowChanged: bool, ok: bool)
      requires SameElements(listed, observed)
      modifies `entries, `nextSourceSequence
      ensures ApplyNew(namespace, observed, Work(old(entries), old(nextSourceSequence), changed), e, displayName)
           == Applied(Work(entries, nextSourceSequence, nowChanged), ok)
    {
      var reused := FindReuseCandidates(e, listed, observed);
      if |reused| == 1 {
        var only :| only in reused;
        assert reused == {only} by {
          assert |reused - {only}| == 0;
        }
        Retire(only, NativeKeyReuse);
      }
      var id := AllocateSourceId();
      if id.None? {
        return changed, false;
      }
      entries := entries[id.value := SourceRecord(e, displayName, Live)];
      return true, true;
    }

    method UpdateKnown(id: Text, displayName: Text, changed: bool) returns (nowChanged: bool)
      requires id in entries
      modifies `entries
      ensures ApplyKnown(Work(old(entries), nextSourceSequence, changed), id, displayName)
           == Work(entries, nextSourceSequence, nowChanged)
    {
      nowChanged := changed;
      if !entries[id].state.Live? {
        entries := entries[id := entries[id].(state := Live)];
        nowChanged := true;
      }
      if entries[id].displayName != displayName {
        entries := entries[id := entries[id].(displayName := displayName)];
        nowChanged := true;
      }
    }

    method FindAmbiguous(candidates: seq<Evidence>) returns (found: set<Text>)
      ensures found == AmbiguousIds(entries, candidates)
    {
      found := {};
      for i := 0 to |candidates|
        invariant found == AmbiguousIds(entries, candidates[..i])
      {
        var left := entries.Keys;
        while left != {}
          invariant left <= entries.Keys
          invariant forall id :: id in found <==>
            id in AmbiguousIds(entries, candidates[..i])
            || (id in entries && id !in left && entries[id].Owns(candidates[i]))
          decreases |left|
        {
          var id :| id in left;
          if entries[id].Owns(candidates[i]) {
            found := found + {id};
          }
          left := left - {id};
        }
        assert candidates[..i + 1] == candidates[..i] + [candidates[i]];
      }
      assert candidates[..|candidates|] == candidates;
    }

    method RetireEach(ids: set<Text>, reason: RetiredReason)
      modifies `entries
      ensures entries == RetireIn(old(entries), ids, reason)
    {
      ghost var was, done := entries, {};
      var left := ids;
      assert entries == RetireIn(was, done, reason);
      while left != {}
        invariant done + left == ids
        invariant entries == RetireIn(was, done, reason)
        decreases |left|
      {
        var id :| id in left;
        Retire(id, reason);
        RetiringOneMore(was, done, id, reason);
        left, done := left - {id}, done + {id};
      }
      assert done == ids;
    }

    method RetireAmbiguous(candidates: seq<Evidence>, changed: bool) returns (nowChanged: bool)
      modifies `entries
      ensures ApplyAmbiguous(Work(old(entries), nextSourceSequence, changed), candidates)
           == Work(entries, nextSourceSequence, nowChanged)
    {
      var found := FindAmbiguous(candidates);
      RetireEach(found, AmbiguousReturn);
      assert found == {} ==> entries == old(entries);
      return changed || found != {};
    }

    method ApplyObservation(o: Observation, listed: seq<Evidence>, ghost observed: set<Evidence>, changed: bool)
      returns (nowChanged: bool, ok: bool)
      requires SameElements(listed, observed) && AtMostOneOpen(entries)
      modifies `entries, `nextSourceSequence
      ensures ApplyOne(namespace, observed, Work(old(entries), old(nextSourceSequence), changed), o)
           == Applied(Work(entries, nextSourceSequence, nowChanged), ok)
    {
      match o.continuity
      case Stable(e) =>
        var known := FindOpenSourceId(e);
        if known.Some? {
          nowChanged := UpdateKnown(known.value, o.displayName, changed);
          return nowChanged, true;
        }
        nowChanged, ok := InsertNew(e, o.displayName, listed, observed, changed);
      case Ambiguous(candidates) =>
        nowChanged := RetireAmbiguous(candidates, changed);
        return nowChanged, true;
      case UnknownContinuity => return changed, true;
    }

    static method StableEvidence(list: seq<Observation>) returns (listed: seq<Evidence>)
      ensures SameElements(listed, Observed(list))
    {
      listed := [];
      for i := 0 to |list|
        invariant forall e :: e in listed ==> e in Observed(list)
        invariant forall k :: 0 <= k < i && list[k].continuity.Stable? ==> list[k].continuity.evidence in listed
      {
        if list[i].continuity.Stable? {
          assert list[i] in list;
          listed := listed + [list[i].continuity.evidence];
        }
      }
    }

    method ApplyObservations(list: seq<Observation>, persists: bool) returns (r: Result<DiscoverySnapshot, RegistryError>)
      requires Value().Sound()
      modifies this
      ensures Value() == Refreshed(old(Value()), list)
      ensures r == RefreshResult(old(Value()), list, persists)
    {
      ghost var s := Value();
      ghost var observed := Observed(list);
      MarkingKeeps(entries, observed);
      var listed := StableEvidence(list);
      var changed := MarkUnobservedAbsent(listed, observed);
      ghost var begun := Begin(s, list);
      assert list[..0] == [];
      for i := 0 to |list|
        invariant namespace == s.namespace && revision == s.revision
        invariant ApplyAll(s.namespace, observed, begun, list[..i])
               == Applied(Work(entries, nextSourceSequence, changed), true)
      {
        assert list[..i + 1][..i] == list[..i];
        var ok;
        changed, ok := ApplyObservation(list[i], listed, observed, changed);
        if !ok {
          StopsAtFailure(s.namespace, observed, begun, list, i + 1);
          return Err(SourceIdAllocationFailed);
        }
      }
      assert list[..|list|] == list;
      if changed {
        revision := Min(revision + 1, U64_MAX);
        if !persists {
          return Err(Io);
        }
      }
      return Ok(DiscoverySnapshot(namespace, revision));
    }

    static lemma {:induction false} StopsAtFailure(
      namespace: Text, observed: set<Evidence>, w: Work, list: seq<Observation>, n: nat)
      requires AtMostOneOpen(w.entries) && n <= |list| && !ApplyAll(namespace, observed, w, list[..n]).ok
      ensures ApplyAll(namespace, observed, w, list) == ApplyAll(namespace, observed, w, list[..n])
      decreases |list| - n
    {
      if n == |list| {
        assert list[..n] == list;
      } else {
        assert list[..n + 1][..n] == list[..n];
        StopsAtFailure(namespace, observed, w, list, n + 1);
      }
    }

    method AdvanceRevision(persists: bool) returns (r: Result<DiscoverySnapshot, RegistryError>)
      modifies `revision
      ensures Value() == old(Value()).(revision := Saturating(old(revision)))
      ensures r == if persists then Ok(SnapshotOf(Value())) else Err(Io)
    {
      revision := Min(revision + 1, U64_MAX);
      if !persists {
        return Err(Io);
      }
      return Ok(DiscoverySnapshot(namespace, revision));
    }
  }
}
