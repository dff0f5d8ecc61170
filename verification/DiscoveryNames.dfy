/** Whose name a source carries, and which endpoints a snapshot is about. */
module DiscoveryNames {
  import opened Base
  import opened Discovery
  import opened DiscoveryRuns
  import opened Identity
  import opened IdentityRuns
  import opened Texts

  // ----- the name an entry gets -----

  /** The name the last stable item for this evidence gives. */
  function LastName(list: seq<Observation>, e: Evidence): Option<Text> {
    if list == [] then None
    else if list[|list| - 1].continuity == Stable(e) then Some(list[|list| - 1].displayName)
    else LastName(list[..|list| - 1], e)
  }

  ghost predicate LiveAreNamed(entries: Entries, list: seq<Observation>) {
    forall id :: id in entries && entries[id].state.Live? && LastName(list, entries[id].evidence).Some? ==>
      entries[id].displayName == LastName(list, entries[id].evidence).value
  }

  /** A live entry is named by the item, or the item left it as it was. */
  lemma OneNames(namespace: Text, observed: set<Evidence>, w: Work, o: Observation, id: Text)
    requires AtMostOneOpen(w.entries) && ApplyOne(namespace, observed, w, o).ok
    requires var later := ApplyOne(namespace, observed, w, o).work.entries;
             id in later && later[id].state.Live?
    ensures var later := ApplyOne(namespace, observed, w, o).work.entries;
            if o.continuity == Stable(later[id].evidence) then later[id].displayName == o.displayName
            else id in w.entries && w.entries[id] == later[id]
  {
    var later := ApplyOne(namespace, observed, w, o).work.entries;
    OneKeeps(namespace, observed, w, o);
    if o.continuity.Stable? {
      if later[id].evidence == o.continuity.evidence {
        OneBecomesQuiet(namespace, observed, w, o);
        var named :| named in later && later[named].Owns(o.continuity.evidence)
                     && later[named].displayName == o.displayName;
        assert BothOpen(later[id], later[named]);
      } else {
        UntouchedByOther(namespace, observed, w, o, id);
      }
    }
  }

  lemma {:induction false} AllNamed(namespace: Text, observed: set<Evidence>, w: Work, list: seq<Observation>)
    requires AtMostOneOpen(w.entries) && ApplyAll(namespace, observed, w, list).ok
    ensures LiveAreNamed(ApplyAll(namespace, observed, w, list).work.entries, list)
  {
    if list != [] {
      var before, o := list[..|list| - 1], list[|list| - 1];
      AllNamed(namespace, observed, w, before);
      var work := ApplyAll(namespace, observed, w, before).work;
      var later := ApplyOne(namespace, observed, work, o).work.entries;
      forall id | id in later && later[id].state.Live? && LastName(list, later[id].evidence).Some?
        ensures later[id].displayName == LastName(list, later[id].evidence).value
      {
        OneNames(namespace, observed, work, o, id);
      }
    }
  }

  lemma {:induction false} SeenIsNamed(list: seq<Observation>, e: Evidence)
    ensures LastName(list, e).Some? <==> e in Observed(list)
  {
    if list != [] {
      var before, o := list[..|list| - 1], list[|list| - 1];
      SeenIsNamed(before, e);
      assert list == before + [o];
      ObservedOfMore(before, o);
    }
  }

  /** After a refresh every live entry carries the name that the last stable item for its evidence gives. */
  lemma RefreshedNames(s: Registry, list: seq<Observation>, id: Text)
    requires s.Sound() && Reconcile(s, list).ok
    requires id in Refreshed(s, list).entries && Refreshed(s, list).entries[id].state.Live?
    ensures LastName(list, Refreshed(s, list).entries[id].evidence) == Some(Refreshed(s, list).entries[id].displayName)
  {
    var e := Refreshed(s, list).entries[id].evidence;
    MarkingKeeps(s.entries, Observed(list));
    AllNamed(s.namespace, Observed(list), Begin(s, list), list);
    RefreshedWithin(s, list);
    SeenIsNamed(list, e);
  }

  /** An entry that keeps its name and its state, unless it is retired. */
  predicate KeepsName(entries: Entries, later: Entries, id: Text)
    requires id in entries
  {
    && id in later && later[id].evidence == entries[id].evidence && later[id].displayName == entries[id].displayName
    && (later[id].state == entries[id].state || later[id].state.Retired?)
  }

  lemma NewKeepsName(namespace: Text, observed: set<Evidence>, w: Work, e: Evidence, displayName: Text, id: Text)
    requires id in w.entries
    ensures KeepsName(w.entries, ApplyNew(namespace, observed, w, e, displayName).work.entries, id)
  {
    var reused := ReuseCandidates(w.entries, e, observed);
    var entries := if |reused| == 1 then RetireIn(w.entries, reused, NativeKeyReuse) else w.entries;
    assert KeepsName(w.entries, entries, id);
    AllocatesUnused(namespace, entries, w.sequence, ALLOCATION_TRIES);
  }

  lemma OneKeepsName(namespace: Text, observed: set<Evidence>, w: Work, o: Observation, id: Text)
    requires AtMostOneOpen(w.entries) && id in w.entries && o.continuity != Stable(w.entries[id].evidence)
    ensures KeepsName(w.entries, ApplyOne(namespace, observed, w, o).work.entries, id)
  {
    if o.continuity.Stable? && !HasOpen(w.entries, o.continuity.evidence) {
      NewKeepsName(namespace, observed, w, o.continuity.evidence, o.displayName, id);
    }
  }

  lemma {:induction false} AllKeepName(namespace: Text, observed: set<Evidence>, w: Work, list: seq<Observation>, id: Text)
    requires AtMostOneOpen(w.entries) && id in w.entries && w.entries[id].evidence !in Observed(list)
    ensures KeepsName(w.entries, ApplyAll(namespace, observed, w, list).work.entries, id)
  {
    if list != [] {
      var before, o := list[..|list| - 1], list[|list| - 1];
      assert list == before + [o];
      ObservedOfMore(before, o);
      AllKeepName(namespace, observed, w, before, id);
      if ApplyAll(namespace, observed, w, before).ok {
        OneKeepsName(namespace, observed, ApplyAll(namespace, observed, w, before).work, o, id);
      }
    }
  }

  /** An entry whose evidence a refresh does not see keeps its name, and goes from live to absent or is retired. */
  lemma UnseenKeepsName(s: Registry, list: seq<Observation>, id: Text)
    requires s.Sound() && id in s.entries && s.entries[id].evidence !in Observed(list)
    ensures var later := Refreshed(s, list).entries;
            && id in later && later[id].displayName == s.entries[id].displayName
            && (s.entries[id].IsOpen() ==> later[id].state.Absent? || later[id].state.Retired?)
            && (!s.entries[id].IsOpen() ==> later[id] == s.entries[id])
  {
    MarkingKeeps(s.entries, Observed(list));
    AllKeepName(s.namespace, Observed(list), Begin(s, list), list, id);
  }

  // ----- what the registry is told -----

  /** Only endpoint `k` of these shows its evidence. */
  predicate ShowsAlone(active: seq<Endpoint>, k: nat, e: Evidence)
    requires k < |active|
  {
    Shows(active[k], e) && forall j :: 0 <= j < |active| && j != k ==> !Shows(active[j], e)
  }

  predicate ShownTwice(active: seq<Endpoint>, e: Evidence) {
    exists i, j :: 0 <= i < j < |active| && Shows(active[i], e) && Shows(active[j], e)
  }

  lemma {:induction false} NoneShows(active: seq<Endpoint>, e: Evidence)
    ensures StableCount(active, e) == 0 <==> forall k :: 0 <= k < |active| ==> !Shows(active[k], e)
  {
    if active != [] {
      NoneShows(active[..|active| - 1], e);
      assert forall k :: 0 <= k < |active| - 1 ==> active[..|active| - 1][k] == active[k];
    }
  }

  lemma {:induction false} AloneIff(active: seq<Endpoint>, e: Evidence, k: nat)
    requires k < |active| && Shows(active[k], e)
    ensures StableCount(active, e) == 1 <==> ShowsAlone(active, k, e)
    ensures StableCount(active, e) >= 1
  {
    var before, last := active[..|active| - 1], active[|active| - 1];
    NoneShows(before, e);
    assert forall j :: 0 <= j < |before| ==> before[j] == active[j];
    if k < |before| {
      AloneIff(before, e, k);
    }
  }

  /** Some endpoint has this name and this continuity. */
  predicate NamedBy(part: seq<Endpoint>, o: Observation) {
    exists j :: 0 <= j < |part| && part[j].continuity == o.continuity && part[j].displayName == o.displayName
  }

  predicate ToldAmbiguous(list: seq<Observation>, e: Evidence) {
    exists k :: 0 <= k < |list| && list[k].continuity == Ambiguous([e])
  }

  /**
   Stable evidence is told under the name of the one endpoint that shows it, evidence shown twice is
   told to be ambiguous, and everything else as it is.
   */
  ghost predicate IsTold(active: seq<Endpoint>, part: seq<Endpoint>, c: Classified) {
    && (forall o :: o in c.observations && o.continuity.Stable? ==>
          NamedBy(part, o) && StableCount(active, o.continuity.evidence) == 1)
    && (forall e :: e in c.duplicates ==> ToldAmbiguous(c.observations, e))
    && (forall o :: o in part ==>
          if o.continuity.Stable? && StableCount(active, o.continuity.evidence) != 1 then
            o.continuity.evidence in c.duplicates
          else Observation(o.displayName, o.continuity) in c.observations)
  }

  lemma NamedByMore(part: seq<Endpoint>, last: Endpoint, o: Observation)
    ensures NamedBy(part, o) ==> NamedBy(part + [last], o)
    ensures last.continuity == o.continuity && last.displayName == o.displayName ==> NamedBy(part + [last], o)
  {
    if NamedBy(part, o) {
      var j :| 0 <= j < |part| && part[j].continuity == o.continuity && part[j].displayName == o.displayName;
      assert (part + [last])[j] == part[j];
    }
    assert (part + [last])[|part|] == last;
  }

  lemma ToldAmbiguousMore(list: seq<Observation>, o: Observation, e: Evidence)
    ensures ToldAmbiguous(list, e) ==> ToldAmbiguous(list + [o], e)
    ensures o.continuity == Ambiguous([e]) ==> ToldAmbiguous(list + [o], e)
  {
    if ToldAmbiguous(list, e) {
      var k :| 0 <= k < |list| && list[k].continuity == Ambiguous([e]);
      assert (list + [o])[k] == list[k];
    }
    assert (list + [o])[|list|] == o;
  }

  lemma TellingOne(active: seq<Endpoint>, part: seq<Endpoint>, last: Endpoint, c: Classified)
    requires IsTold(active, part, c)
    ensures IsTold(active, part + [last], ClassifyOne(active, c, last))
  {
    var next := ClassifyOne(active, c, last);
    forall o | o in next.observations && o.continuity.Stable?
      ensures NamedBy(part + [last], o) && StableCount(active, o.continuity.evidence) == 1
    {
      NamedByMore(part, last, o);
    }
    if next.observations != c.observations {
      forall e | e in next.duplicates
        ensures ToldAmbiguous(next.observations, e)
      {
        ToldAmbiguousMore(c.observations, next.observations[|next.observations| - 1], e);
      }
    }
  }

  lemma {:induction false} Telling(active: seq<Endpoint>, part: seq<Endpoint>)
    ensures IsTold(active, part, Classify(active, part))
  {
    if part != [] {
      var before, last := part[..|part| - 1], part[|part| - 1];
      assert part == before + [last];
      Telling(active, before);
      TellingOne(active, before, last, Classify(active, before));
    }
  }

  // ----- evidence shown twice -----

  lemma RetiredIsClosed(w: Work, candidates: seq<Evidence>, e: Evidence)
    requires e in candidates
    ensures !HasOpen(ApplyAmbiguous(w, candidates).entries, e)
  {
    forall id | id in w.entries && w.entries[id].IsOpen() && w.entries[id].evidence == e
      ensures id in AmbiguousIds(w.entries, candidates)
    {
    }
  }

  /** Evidence told to be ambiguous, and never stable, owns nothing afterwards. */
  lemma {:induction false} AmbiguousStaysClosed(
    namespace: Text, observed: set<Evidence>, w: Work, list: seq<Observation>, e: Evidence)
    requires AtMostOneOpen(w.entries) && ApplyAll(namespace, observed, w, list).ok
    requires ToldAmbiguous(list, e) && e !in Observed(list)
    ensures !HasOpen(ApplyAll(namespace, observed, w, list).work.entries, e)
  {
    var before, o := list[..|list| - 1], list[|list| - 1];
    var work := ApplyAll(namespace, observed, w, before).work;
    assert list == before + [o];
    ObservedOfMore(before, o);
    if o.continuity.Ambiguous? && e in o.continuity.candidates {
      RetiredIsClosed(work, o.continuity.candidates, e);
    } else {
      var k :| 0 <= k < |list| && list[k].continuity == Ambiguous([e]);
      assert before[k] == list[k];
      AmbiguousStaysClosed(namespace, observed, w, before, e);
      NothingOpens(namespace, observed, work, o, e);
    }
  }

  lemma NothingOpens(namespace: Text, observed: set<Evidence>, w: Work, o: Observation, e: Evidence)
    requires AtMostOneOpen(w.entries) && !HasOpen(w.entries, e) && o.continuity != Stable(e)
    ensures !HasOpen(ApplyOne(namespace, observed, w, o).work.entries, e)
  {
    var later := ApplyOne(namespace, observed, w, o).work.entries;
    if HasOpen(later, e) {
      var id :| id in later && later[id].Owns(e);
      NoneAppears(namespace, observed, w, o, [e]);
      assert id in AmbiguousIds(later, [e]) && id in AmbiguousIds(w.entries, [e]);
      assert w.entries[id].Owns(e);
    }
  }

  // ----- endpoints that are not active -----

  lemma {:induction false} ActiveOfAppend(a: seq<Endpoint>, b: seq<Endpoint>)
    ensures ActiveOf(a + b) == ActiveOf(a) + ActiveOf(b)
  {
    if b == [] {
      assert a + b == a;
    } else {
      var before := b[..|b| - 1];
      ActiveOfAppend(a, before);
      assert (a + b)[..|a + b| - 1] == a + before;
    }
  }

  lemma {:induction false} ActiveIff(endpoints: seq<Endpoint>, o: Endpoint)
    ensures o in ActiveOf(endpoints) <==> o in endpoints && o.state == EndpointActive
  {
    if endpoints != [] {
      var before := endpoints[..|endpoints| - 1];
      ActiveIff(before, o);
      assert endpoints == before + [endpoints[|endpoints| - 1]];
    }
  }

  /** A refresh does not see an endpoint that is not active. */
  lemma InactiveAddsNothing(
    d: DiscoveryFacts, a: seq<Endpoint>, o: Endpoint, b: seq<Endpoint>, persists: bool, persistsAgain: bool)
    requires d.registry.Sound() && o.state != EndpointActive
    ensures Refresh(d, Some(a + [o] + b), persists, persistsAgain) == Refresh(d, Some(a + b), persists, persistsAgain)
  {
    ActiveOfAppend(a + [o], b);
    ActiveOfAppend(a, [o]);
    ActiveOfAppend(a, b);
    assert ActiveOf([o]) == [];
  }

  // ----- a returned snapshot -----

  /** An endpoint without continuity of its own names this evidence among others. */
  predicate IsCandidate(active: seq<Endpoint>, e: Evidence) {
    exists o :: o in active && o.continuity.Ambiguous? && e in o.continuity.candidates
  }

  predicate IsAvailableAs(entries: Entries, p: PlaybackSnapshot, e: Evidence) {
    exists id :: id in p.sources && id in entries && entries[id].evidence == e && p.sources[id].isAvailable
  }

  /** The registry a successful refresh leaves has the entries its observations make. */
  lemma RefreshedEntries(d: DiscoveryFacts, endpoints: seq<Endpoint>, persists: bool, persistsAgain: bool)
    requires d.registry.Sound() && Refresh(d, Some(endpoints), persists, persistsAgain).result.Ok?
    ensures var list := Classify(ActiveOf(endpoints), ActiveOf(endpoints)).observations;
            && Reconcile(d.registry, list).ok
            && Refresh(d, Some(endpoints), persists, persistsAgain).facts.registry.entries
               == Refreshed(d.registry, list).entries
  {
  }

  lemma AloneWithName(active: seq<Endpoint>, o: Observation) returns (k: nat)
    requires o.continuity.Stable? && NamedBy(active, o) && StableCount(active, o.continuity.evidence) == 1
    ensures k < |active| && ShowsAlone(active, k, o.continuity.evidence) && active[k].displayName == o.displayName
  {
    k :| 0 <= k < |active| && active[k].continuity == o.continuity && active[k].displayName == o.displayName;
    AloneIff(active, o.continuity.evidence, k);
  }

  lemma {:induction false} LastNameIsTold(list: seq<Observation>, e: Evidence)
    requires LastName(list, e).Some?
    ensures Observation(LastName(list, e).value, Stable(e)) in list
  {
    if list[|list| - 1].continuity != Stable(e) {
      LastNameIsTold(list[..|list| - 1], e);
    }
  }

  /**
   In every snapshot a refresh returns, each available source carries the display name of the one
   active endpoint that shows its evidence.
   */
  lemma SourceIsNamedByEndpoint(
    d: DiscoveryFacts, endpoints: seq<Endpoint>, persists: bool, persistsAgain: bool, id: Text) returns (k: nat)
    requires d.registry.Sound() && Refresh(d, Some(endpoints), persists, persistsAgain).result.Ok?
    requires var p := Refresh(d, Some(endpoints), persists, persistsAgain).result.value;
             id in p.sources && p.sources[id].isAvailable
    ensures var r, active := Refresh(d, Some(endpoints), persists, persistsAgain), ActiveOf(endpoints);
            && id in r.facts.registry.entries && k < |active|
            && ShowsAlone(active, k, r.facts.registry.entries[id].evidence)
            && r.result.value.sources[id].displayName == active[k].displayName
  {
    var r, active := Refresh(d, Some(endpoints), persists, persistsAgain), ActiveOf(endpoints);
    var list := Classify(active, active).observations;
    RefreshIsConsistent(d, Some(endpoints), persists, persistsAgain);
    RefreshedEntries(d, endpoints, persists, persistsAgain);
    var record := r.facts.registry.entries[id];
    RefreshedNames(d.registry, list, id);
    Telling(active, active);
    LastNameIsTold(list, record.evidence);
    k := AloneWithName(active, Observation(record.displayName, Stable(record.evidence)));
  }

  /** Evidence that two active endpoints show leaves no source behind that is not retired. */
  lemma ShownTwiceIsClosed(
    d: DiscoveryFacts, endpoints: seq<Endpoint>, persists: bool, persistsAgain: bool, e: Evidence)
    requires d.registry.Sound() && Refresh(d, Some(endpoints), persists, persistsAgain).result.Ok?
    requires ShownTwice(ActiveOf(endpoints), e)
    ensures !HasOpen(Refresh(d, Some(endpoints), persists, persistsAgain).facts.registry.entries, e)
  {
    var active := ActiveOf(endpoints);
    var c := Classify(active, active);
    RefreshedEntries(d, endpoints, persists, persistsAgain);
    Telling(active, active);
    var i, j :| 0 <= i < j < |active| && Shows(active[i], e) && Shows(active[j], e);
    AloneIff(active, e, i);
    assert !ShowsAlone(active, i, e) && active[i] in active;
    assert e in c.duplicates && e !in Observed(c.observations);
    MarkingKeeps(d.registry.entries, Observed(c.observations));
    AmbiguousStaysClosed(d.registry.namespace, Observed(c.observations), Begin(d.registry, c.observations), c.observations, e);
  }

  /**
   And exactly the evidence that one active endpoint shows alone is available, unless another
   endpoint names it as one of several candidates.
   */
  lemma AvailableIff(d: DiscoveryFacts, endpoints: seq<Endpoint>, persists: bool, persistsAgain: bool, e: Evidence)
    requires d.registry.Sound() && Refresh(d, Some(endpoints), persists, persistsAgain).result.Ok?
    requires !IsCandidate(ActiveOf(endpoints), e)
    ensures var r := Refresh(d, Some(endpoints), persists, persistsAgain);
            IsAvailableAs(r.facts.registry.entries, r.result.value, e) <==>
            exists k :: 0 <= k < |ActiveOf(endpoints)| && ShowsAlone(ActiveOf(endpoints), k, e)
  {
    var r, active := Refresh(d, Some(endpoints), persists, persistsAgain), ActiveOf(endpoints);
    var list := Classify(active, active).observations;
    RefreshIsConsistent(d, Some(endpoints), persists, persistsAgain);
    RefreshedEntries(d, endpoints, persists, persistsAgain);
    Telling(active, active);
    RefreshedLive(d.registry, list, e);
    if IsAvailableAs(r.facts.registry.entries, r.result.value, e) {
      var id :| id in r.result.value.sources && r.facts.registry.entries[id].evidence == e
                && r.result.value.sources[id].isAvailable;
      var k := SourceIsNamedByEndpoint(d, endpoints, persists, persistsAgain, id);
      assert ShowsAlone(active, k, e);
    }
    if k :| 0 <= k < |active| && ShowsAlone(active, k, e) {
      AloneIff(active, e, k);
      assert active[k] in active && Observation(active[k].displayName, Stable(e)) in list;
      AloneIsLastSeen(active, e, k);
      var id :| id in r.facts.registry.entries && r.facts.registry.entries[id].state.Live?
                && r.facts.registry.entries[id].evidence == e;
      assert id in r.result.value.sources && r.result.value.sources[id].isAvailable;
    }
  }

  lemma AloneIsLastSeen(active: seq<Endpoint>, e: Evidence, k: nat)
    requires k < |active| && ShowsAlone(active, k, e) && !IsCandidate(active, e)
    ensures LastSeenStable(Classify(active, active).observations, e)
  {
    var list := Classify(active, active).observations;
    Telling(active, active);
    AloneIff(active, e, k);
    AmbiguousIsTold(active, active);
    forall j | 0 <= j < |list|
      ensures !list[j].continuity.Ambiguous? || e !in list[j].continuity.candidates
    {
      assert list[j] in list;
    }
    assert active[k] in active;
    SeenIsLastSeen(list, e);
  }

  /** An ambiguous item is an ambiguous endpoint, or evidence that is shown more than once. */
  lemma {:induction false} AmbiguousIsTold(active: seq<Endpoint>, part: seq<Endpoint>)
    requires forall o :: o in part ==> o in active
    ensures forall o :: o in Classify(active, part).observations && o.continuity.Ambiguous? ==>
              || (exists e :: o.continuity == Ambiguous([e]) && StableCount(active, e) != 1)
              || (exists p :: p in active && p.continuity == o.continuity)
  {
    if part != [] {
      var before, last := part[..|part| - 1], part[|part| - 1];
      assert last in part;
      AmbiguousIsTold(active, before);
    }
  }
}
