/** When a refresh fails, what it says then, and what it leaves behind. */
module DiscoveryErrors {
  import opened Base
  import opened Discovery
  import opened DiscoveryRuns
  import opened Identity
  import opened IdentityRuns
  import opened IdentityStore
  import opened Texts

  predicate IsActiveDefault(o: Endpoint) {
    o.state.EndpointActive? && o.isDefault
  }

  /** Two of the endpoints listed are active and say they are the default. */
  predicate HasTwoDefaults(endpoints: seq<Endpoint>) {
    exists i, j :: 0 <= i < j < |endpoints| && IsActiveDefault(endpoints[i]) && IsActiveDefault(endpoints[j])
  }

  predicate HasDefault(endpoints: seq<Endpoint>) {
    exists i :: 0 <= i < |endpoints| && IsActiveDefault(endpoints[i])
  }

  lemma DefaultStep(endpoints: seq<Endpoint>)
    requires endpoints != []
    ensures var before, last := endpoints[..|endpoints| - 1], endpoints[|endpoints| - 1];
            && (HasDefault(endpoints) <==> HasDefault(before) || IsActiveDefault(last))
            && (HasTwoDefaults(endpoints) <==> HasTwoDefaults(before) || (HasDefault(before) && IsActiveDefault(last)))
  {
    var before, n := endpoints[..|endpoints| - 1], |endpoints| - 1;
    assert forall i :: 0 <= i < n ==> before[i] == endpoints[i];
    if HasDefault(before) {
      var i :| 0 <= i < |before| && IsActiveDefault(before[i]);
      assert IsActiveDefault(endpoints[i]);
      assert IsActiveDefault(endpoints[n]) ==> HasTwoDefaults(endpoints);
    }
    if HasTwoDefaults(before) {
      var i, j :| 0 <= i < j < |before| && IsActiveDefault(before[i]) && IsActiveDefault(before[j]);
      assert IsActiveDefault(endpoints[i]) && IsActiveDefault(endpoints[j]);
    }
    if HasTwoDefaults(endpoints) {
      var i, j :| 0 <= i < j < |endpoints| && IsActiveDefault(endpoints[i]) && IsActiveDefault(endpoints[j]);
      assert IsActiveDefault(before[i]);
      assert j < n ==> IsActiveDefault(before[j]);
    }
  }

  lemma {:induction false} DefaultsAreCounted(endpoints: seq<Endpoint>)
    ensures DefaultCount(ActiveOf(endpoints)) >= 1 <==> HasDefault(endpoints)
    ensures DefaultCount(ActiveOf(endpoints)) >= 2 <==> HasTwoDefaults(endpoints)
  {
    if endpoints != [] {
      var before, last := endpoints[..|endpoints| - 1], endpoints[|endpoints| - 1];
      DefaultsAreCounted(before);
      DefaultStep(endpoints);
      var active := ActiveOf(before);
      assert (active + [last])[..|active|] == active;
    }
  }

  /** A refused refresh, and everything it may leave changed: no snapshot, and a registry that could not be written. */
  ghost predicate FailsWith(d: DiscoveryFacts, call: Call, next: DiscoveryFacts, error: DiscoveryError) {
    && next.last == d.last
    && match error
       case EndpointEnumeration => call.endpoints.None? && next == d
       case ConflictingDefaultPlaybackEndpoints =>
         call.endpoints.Some? && HasTwoDefaults(call.endpoints.value) && next == d
       case NotRegistered(Io) =>
         && call.endpoints.Some? && !HasTwoDefaults(call.endpoints.value)
         && (!call.persists || !call.persistsAgain) && next.registry.revision > d.registry.revision
       case _ => false
  }

  /**
   A refresh with headroom fails in three ways only: the endpoints cannot be listed, two of them are
   the default, or a change cannot be written. An unwritten change is never reported, and takes a
   revision all the same.
   */
  lemma CallFailsIff(d: DiscoveryFacts, call: Call)
    requires IsLoaded(d.registry) && HasHeadroom(d, call)
    ensures var called := Called(d, call);
            && (called.result.Err? ==> FailsWith(d, call, called.facts, called.result.error))
            && (call.endpoints.None? ==> called.result.Err?)
            && (call.endpoints.Some? && HasTwoDefaults(call.endpoints.value) ==> called.result.Err?)
            && (called.result.Ok? && !call.persists ==> called.facts.registry.entries == d.registry.entries)
            && (called.result.Ok? && !call.persists && !call.persistsAgain ==> called.facts.registry == d.registry)
            && (call.endpoints.Some? && !HasTwoDefaults(call.endpoints.value) && call.persists && call.persistsAgain ==>
                  called.result.Ok?)
  {
    if call.endpoints.Some? {
      var active := ActiveOf(call.endpoints.value);
      var list := Classify(active, active).observations;
      DefaultsAreCounted(call.endpoints.value);
      CallReconciles(d, call);
      WritingIff(d.registry, list);
    }
  }

  /** Something is to be written exactly if the refresh changes the registry, and then the revision moves. */
  lemma WritingIff(s: Registry, list: seq<Observation>)
    requires s.Sound() && s.revision < U64_MAX && Reconcile(s, list).ok
    ensures if Reconcile(s, list).work.changed then Refreshed(s, list).revision == s.revision + 1
            else Refreshed(s, list) == s
  {
    UnchangedIff(s, list);
  }

  /** Ids that run out fail the refresh without a revision: what it did until then is kept, and no snapshot notices. */
  lemma RunningOutTakesNoRevision(d: DiscoveryFacts, call: Call)
    requires d.registry.Sound() && call.endpoints.Some? && !HasTwoDefaults(call.endpoints.value)
    requires var active := ActiveOf(call.endpoints.value);
             !Reconcile(d.registry, Classify(active, active).observations).ok
    ensures var called := Called(d, call);
            && called.result == Err(NotRegistered(SourceIdAllocationFailed)) && called.facts.last == d.last
            && SnapshotOf(called.facts.registry) == SnapshotOf(d.registry)
  {
    DefaultsAreCounted(call.endpoints.value);
  }

  lemma {:induction false} NoIdLeft(namespace: Text, entries: Entries, last: u64, tries: nat)
    requires last == U64_MAX && SourceIdText(namespace, last) in entries
    ensures Allocate(namespace, entries, last, tries) == Allocated(last, None)
    decreases tries
  {
    if tries > 0 {
      NoIdLeft(namespace, entries, last, tries - 1);
    }
  }

  /** One id, for evidence `e`. */
  function OneSource(id: Text, e: Evidence, name: Text): Entries {
    map[id := SourceRecord(e, name, Live)]
  }

  /** New evidence finds no id. */
  lemma NewFindsNoId(namespace: Text, observed: set<Evidence>, w: Work, id: Text, e: Evidence, name: Text, o: Observation)
    requires w.entries == OneSource(id, e, name) && w.sequence == U64_MAX && id == SourceIdText(namespace, w.sequence)
    requires o.continuity.Stable? && o.continuity.evidence != e && e in observed
    ensures AtMostOneOpen(w.entries)
    ensures ApplyOne(namespace, observed, w, o) == Applied(w, false)
  {
    assert !HasOpen(w.entries, o.continuity.evidence);
    assert ReuseCandidates(w.entries, o.continuity.evidence, observed) == {};
    NoIdLeft(namespace, w.entries, w.sequence, ALLOCATION_TRIES);
  }

  lemma KnownIsRenamed(
    namespace: Text, observed: set<Evidence>, w: Work, id: Text, e: Evidence, name: Text, later: Text)
    requires w.entries == OneSource(id, e, name) && name != later
    ensures AtMostOneOpen(w.entries)
    ensures ApplyOne(namespace, observed, w, Observation(later, Stable(e)))
         == Applied(Work(OneSource(id, e, later), w.sequence, true), true)
  {
    assert w.entries[id].Owns(e);
    assert OpenId(w.entries, e) == id;
  }

  /**
   A registry whose numbers are spent, a source that got another name, and a new one: the refresh
   fails, the source is renamed all the same, and every snapshot taken before stays current.
   */
  lemma RunningOutKeepsChanges(s: Registry, id: Text, e: Evidence, f: Evidence, name: Text, later: Text)
    requires s.entries == OneSource(id, e, name) && s.nextSequence == U64_MAX
    requires id == SourceIdText(s.namespace, s.nextSequence) && e != f && name != later
    ensures var list := [Observation(later, Stable(e)), Observation(later, Stable(f))];
            && s.Sound() && !Reconcile(s, list).ok
            && SnapshotOf(Refreshed(s, list)) == SnapshotOf(s)
            && Refreshed(s, list).entries == OneSource(id, e, later) != s.entries
  {
    var first, second := Observation(later, Stable(e)), Observation(later, Stable(f));
    var list := [first, second];
    var observed, work := Observed(list), Begin(s, list);
    assert first in list;
    assert work.entries == s.entries;
    KnownIsRenamed(s.namespace, observed, work, id, e, name, later);
    var renamed := Work(OneSource(id, e, later), work.sequence, true);
    assert list[..1] == [first] && [first][..0] == [];
    assert ApplyAll(s.namespace, observed, work, [first]) == Applied(renamed, true);
    NewFindsNoId(s.namespace, observed, renamed, id, e, later, second);
    assert OneSource(id, e, later)[id] != OneSource(id, e, name)[id];
  }
}
