/** What discovery promises about its snapshots, for one refresh and for all refreshes of one process. */
module DiscoveryRuns {
  import opened Base
  import opened Discovery
  import opened Identity
  import opened IdentityRuns
  import opened IdentityStore
  import opened Texts

  // ----- sorting the endpoints -----

  lemma {:induction false} CountGrows(active: seq<Endpoint>, n: nat, e: Evidence)
    requires n <= |active|
    ensures StableCount(active[..n], e) <= StableCount(active, e)
    decreases |active|
  {
    if n < |active| {
      assert active[..|active| - 1][..n] == active[..n];
      CountGrows(active[..|active| - 1], n, e);
    } else {
      assert active[..n] == active;
    }
  }

  predicate ShownBy(describable: seq<Endpoint>, e: Evidence) {
    exists k :: 0 <= k < |describable| && Shows(describable[k], e)
  }

  lemma ShownByMore(describable: seq<Endpoint>, o: Endpoint, e: Evidence)
    ensures ShownBy(describable + [o], e) <==> ShownBy(describable, e) || Shows(o, e)
  {
    var more := describable + [o];
    if ShownBy(describable, e) {
      var k :| 0 <= k < |describable| && Shows(describable[k], e);
      assert Shows(more[k], e);
    }
    if Shows(o, e) {
      assert Shows(more[|describable|], e);
    }
  }

  ghost predicate IsSorted(all: seq<Endpoint>, part: seq<Endpoint>, c: Classified) {
    && (forall k :: 0 <= k < |c.describable| ==>
          c.describable[k].continuity.Stable? && StableCount(part, c.describable[k].continuity.evidence) >= 1)
    && (forall i, j :: 0 <= i < j < |c.describable| ==> c.describable[i].continuity != c.describable[j].continuity)
    && forall e :: e in Observed(c.observations) <==> ShownBy(c.describable, e)
  }

  lemma ObservedOfMore(list: seq<Observation>, o: Observation)
    ensures Observed(list + [o]) == Observed(list) + if o.continuity.Stable? then {o.continuity.evidence} else {}
  {
    assert forall seen :: seen in list + [o] <==> seen in list || seen == o;
    if o.continuity.Stable? {
      assert o in list + [o];
    }
  }

  lemma ClassifyingOne(all: seq<Endpoint>, before: seq<Endpoint>, o: Endpoint, c: Classified)
    requires IsSorted(all, before, c)
    requires o.continuity.Stable? ==>
               StableCount(before, o.continuity.evidence) + 1 <= StableCount(all, o.continuity.evidence)
    ensures IsSorted(all, before + [o], ClassifyOne(all, c, o))
  {
    var part, next := before + [o], ClassifyOne(all, c, o);
    assert part[..|part| - 1] == before;
    if next.observations != c.observations {
      ObservedOfMore(c.observations, next.observations[|next.observations| - 1]);
    }
    if next.describable != c.describable {
      forall e
        ensures e in Observed(next.observations) <==> ShownBy(next.describable, e)
      {
        ShownByMore(c.describable, o, e);
      }
    }
  }

  /** Each endpoint that can be described is the only active one with its evidence. */
  lemma {:induction false} Classifying(all: seq<Endpoint>, n: nat)
    requires n <= |all|
    ensures IsSorted(all, all[..n], Classify(all, all[..n]))
    decreases n
  {
    if n > 0 {
      var part := all[..n];
      assert part[..|part| - 1] == all[..n - 1] && part == all[..n - 1] + [all[n - 1]];
      Classifying(all, n - 1);
      if all[n - 1].continuity.Stable? {
        CountGrows(all, n, all[n - 1].continuity.evidence);
      }
      ClassifyingOne(all, all[..n - 1], all[n - 1], Classify(all, all[..n - 1]));
    }
  }

  // ----- bindings -----

  predicate BindsLive(s: Registry, b: Binding) {
    && b.identity == SnapshotOf(s) && b.sourceId in s.entries && s.entries[b.sourceId].state.Live?
    && b.endpointId == s.entries[b.sourceId].evidence.backendKey
  }

  predicate Binds(bindings: seq<Binding>, id: Text) {
    exists k :: 0 <= k < |bindings| && bindings[k].sourceId == id
  }

  ghost predicate OnlyLive(s: Registry, describable: seq<Endpoint>, bindings: seq<Binding>) {
    forall k :: 0 <= k < |bindings| ==>
      BindsLive(s, bindings[k]) && ShownBy(describable, s.entries[bindings[k].sourceId].evidence)
  }

  predicate OnceEach(bindings: seq<Binding>) {
    forall i, j :: 0 <= i < j < |bindings| ==> bindings[i].sourceId != bindings[j].sourceId
  }

  ghost predicate BindsShown(s: Registry, describable: seq<Endpoint>, bindings: seq<Binding>)
    requires s.Sound()
  {
    forall e :: ShownBy(describable, e) && HasOpen(s.entries, e) ==> Binds(bindings, OpenId(s.entries, e))
  }

  predicate NoneShownTwice(describable: seq<Endpoint>) {
    && (forall k :: 0 <= k < |describable| ==> describable[k].continuity.Stable?)
    && forall i, j :: 0 <= i < j < |describable| ==> describable[i].continuity != describable[j].continuity
  }

  ghost predicate ShownIsLive(s: Registry, describable: seq<Endpoint>) {
    forall e :: ShownBy(describable, e) ==> OpenIsLive(s.entries, e)
  }

  lemma {:induction false} BindingAll(s: Registry, describable: seq<Endpoint>)
    requires s.Sound() && NoneShownTwice(describable) && ShownIsLive(s, describable)
    ensures OnlyLive(s, describable, Bind(s, describable)) && OnceEach(Bind(s, describable))
    ensures BindsShown(s, describable, Bind(s, describable))
  {
    if describable != [] {
      var before, last := describable[..|describable| - 1], describable[|describable| - 1];
      assert describable == before + [last];
      forall e
        ensures ShownBy(describable, e) <==> ShownBy(before, e) || Shows(last, e)
      {
        ShownByMore(before, last, e);
      }
      BindingAll(s, before);
      LastIsNew(before, last);
      assert Shows(last, last.continuity.evidence);
      BindingOneMore(s, before, last, describable, Bind(s, before));
    }
  }

  lemma LastIsNew(before: seq<Endpoint>, last: Endpoint)
    requires NoneShownTwice(before + [last])
    ensures last.continuity.Stable? && !ShownBy(before, last.continuity.evidence)
  {
    var all := before + [last];
    assert all[|before|] == last;
    forall k | 0 <= k < |before|
      ensures !Shows(before[k], last.continuity.evidence)
    {
      assert all[k].continuity != all[|before|].continuity;
    }
  }

  lemma BindingOneMore(
    s: Registry, before: seq<Endpoint>, last: Endpoint, describable: seq<Endpoint>, bindings: seq<Binding>)
    requires s.Sound() && last.continuity.Stable? && OpenIsLive(s.entries, last.continuity.evidence)
    requires !ShownBy(before, last.continuity.evidence)
    requires forall e :: ShownBy(describable, e) <==> ShownBy(before, e) || Shows(last, e)
    requires OnlyLive(s, before, bindings) && OnceEach(bindings) && BindsShown(s, before, bindings)
    ensures var next := if BindingFor(s, last).Some? then bindings + [BindingFor(s, last).value] else bindings;
            OnlyLive(s, describable, next) && OnceEach(next) && BindsShown(s, describable, next)
  {
    var e := last.continuity.evidence;
    if BindingFor(s, last).Some? {
      var next := bindings + [BindingFor(s, last).value];
      forall f | ShownBy(describable, f) && HasOpen(s.entries, f)
        ensures Binds(next, OpenId(s.entries, f))
      {
        if f == e {
          assert next[|bindings|].sourceId == OpenId(s.entries, f);
        } else {
          var b :| 0 <= b < |bindings| && bindings[b].sourceId == OpenId(s.entries, f);
          assert next[b].sourceId == OpenId(s.entries, f);
        }
      }
    }
  }

  lemma {:induction false} FindsBinding(bindings: seq<Binding>, id: Text)
    ensures FindBinding(bindings, id).Some? <==> Binds(bindings, id)
    ensures FindBinding(bindings, id).Some? ==>
              FindBinding(bindings, id).value in bindings && FindBinding(bindings, id).value.sourceId == id
  {
    if bindings != [] && bindings[0].sourceId != id {
      FindsBinding(bindings[1..], id);
      if Binds(bindings, id) {
        var k :| 0 <= k < |bindings| && bindings[k].sourceId == id;
        assert bindings[1..][k - 1].sourceId == id;
      }
      if Binds(bindings[1..], id) {
        var k :| 0 <= k < |bindings[1..]| && bindings[1..][k].sourceId == id;
        assert bindings[k + 1].sourceId == id;
      }
    }
  }

  // ----- a snapshot and the registry it describes -----

  /** The source marked as default is the one the default binding is for. */
  ghost predicate DefaultMatches(p: PlaybackSnapshot) {
    && (p.defaultBinding.Some? ==>
          && p.defaultBinding.value in p.bindings && p.defaultBinding.value.sourceId in p.sources
          && p.sources[p.defaultBinding.value.sourceId].isDefaultPlayback)
    && forall id :: id in p.sources && p.sources[id].isDefaultPlayback ==>
         p.defaultBinding.Some? && p.defaultBinding.value.sourceId == id
  }

  predicate Describes(entries: Entries, sources: map<Text, Descriptor>) {
    && sources.Keys == (set id | id in entries && entries[id].IsOpen())
    && forall id :: id in sources ==>
         sources[id].displayName == entries[id].displayName && sources[id].isAvailable == entries[id].state.Live?
  }

  /** Exactly the open entries are described, and exactly the live ones are bound, once each, to their own endpoint. */
  ghost predicate Consistent(s: Registry, p: PlaybackSnapshot) {
    && p.identity == SnapshotOf(s)
    && Describes(s.entries, p.sources)
    && (forall k :: 0 <= k < |p.bindings| ==> BindsLive(s, p.bindings[k]))
    && OnceEach(p.bindings)
    && (forall id :: id in s.entries && s.entries[id].state.Live? ==> Binds(p.bindings, id))
    && DefaultMatches(p)
  }

  lemma {:induction false} DefaultIsShown(entries: Entries, describable: seq<Endpoint>)
    requires AtMostOneOpen(entries) && DefaultId(entries, describable).Some?
    ensures exists e :: ShownBy(describable, e) && HasOpen(entries, e)
                        && DefaultId(entries, describable).value == OpenId(entries, e)
    decreases |describable|
  {
    if describable[0].isDefault {
      assert Shows(describable[0], describable[0].continuity.evidence);
      assert ShownBy(describable, describable[0].continuity.evidence);
    } else {
      DefaultIsShown(entries, describable[1..]);
      var e :| ShownBy(describable[1..], e) && HasOpen(entries, e)
               && DefaultId(entries, describable[1..]).value == OpenId(entries, e);
      var k :| 0 <= k < |describable[1..]| && Shows(describable[1..][k], e);
      assert Shows(describable[k + 1], e);
    }
  }

  lemma DefaultAgrees(s: Registry, describable: seq<Endpoint>)
    requires s.Sound() && BindsShown(s, describable, Bind(s, describable))
    ensures DefaultMatches(Snapshot(s, describable))
  {
    var id := DefaultId(s.entries, describable);
    if id.Some? {
      DefaultIsShown(s.entries, describable);
      FindsBinding(Bind(s, describable), id.value);
    }
  }

  ghost predicate LiveIsShown(entries: Entries, describable: seq<Endpoint>) {
    forall id :: id in entries && entries[id].state.Live? ==> ShownBy(describable, entries[id].evidence)
  }

  lemma SnapshotIsConsistent(s: Registry, describable: seq<Endpoint>)
    requires s.Sound() && NoneShownTwice(describable) && ShownIsLive(s, describable)
    requires LiveIsShown(s.entries, describable)
    ensures Consistent(s, Snapshot(s, describable))
  {
    BindingAll(s, describable);
    DefaultAgrees(s, describable);
    forall id | id in s.entries && s.entries[id].state.Live?
      ensures Binds(Bind(s, describable), id)
    {
      var e := s.entries[id].evidence;
      assert HasOpen(s.entries, e) && BothOpen(s.entries[id], s.entries[OpenId(s.entries, e)]);
    }
  }

  lemma RefreshedIsShown(s: Registry, active: seq<Endpoint>)
    requires s.Sound() && Reconcile(s, Classify(active, active).observations).ok
    ensures var c := Classify(active, active);
            && NoneShownTwice(c.describable)
            && ShownIsLive(Refreshed(s, c.observations), c.describable)
            && LiveIsShown(Refreshed(s, c.observations).entries, c.describable)
  {
    var c := Classify(active, active);
    var after := Refreshed(s, c.observations);
    Classifying(active, |active|);
    assert active[..|active|] == active;
    MarkingKeeps(s.entries, Observed(c.observations));
    forall e | ShownBy(c.describable, e)
      ensures OpenIsLive(after.entries, e)
    {
      SeenOpenIsLive(s.namespace, Observed(c.observations), Begin(s, c.observations), c.observations, e);
    }
    forall id | id in after.entries && after.entries[id].state.Live?
      ensures ShownBy(c.describable, after.entries[id].evidence)
    {
      var e := after.entries[id].evidence;
      assert HasLive(after.entries, e);
      RefreshedLive(s, c.observations, e);
      LastSeenIsSeen(c.observations, e);
    }
  }

  /** Every snapshot a refresh returns describes the registry as that refresh leaves it. */
  lemma RefreshIsConsistent(d: DiscoveryFacts, endpoints: Option<seq<Endpoint>>, persists: bool, persistsAgain: bool)
    requires d.registry.Sound() && Refresh(d, endpoints, persists, persistsAgain).result.Ok?
    ensures var r := Refresh(d, endpoints, persists, persistsAgain);
            r.facts.registry.Sound() && r.facts.last == Some(r.result.value) && Consistent(r.facts.registry, r.result.value)
  {
    var active := ActiveOf(endpoints.value);
    var c := Classify(active, active);
    var after := Refreshed(d.registry, c.observations);
    RefreshedIsShown(d.registry, active);
    if NeedsNewRevision(d, after.revision, Snapshot(after, c.describable).sources) {
      assert ShownIsLive(After(after, Advance), c.describable);
      SnapshotIsConsistent(After(after, Advance), c.describable);
    } else {
      SnapshotIsConsistent(after, c.describable);
    }
  }

  // ----- resolving against a current snapshot -----

  /**
   Against a snapshot that describes the registry, a source resolves exactly when it is live; the
   binding is its own, and the error for a live source without a binding never occurs.
   */
  lemma ExplicitResolvesIff(s: Registry, id: Text, p: PlaybackSnapshot)
    requires Consistent(s, p)
    ensures var r := ResolveExplicitCapture(s, id, p);
            && (r.Ok? <==> id in s.entries && s.entries[id].state.Live?)
            && (r.Ok? ==>
                  && r.value in p.bindings && r.value.sourceId == id && r.value.identity == SnapshotOf(s)
                  && r.value.endpointId == s.entries[id].evidence.backendKey)
            && (r.Err? ==> r.error.NotRegistered? && !r.error.error.SnapshotStale?)
            && (r == Err(NotRegistered(UnknownSource)) <==> id !in s.entries)
            && (r == Err(NotRegistered(SourceUnavailable)) <==> id in s.entries && s.entries[id].state.Absent?)
            && (r == Err(NotRegistered(SourceRetired)) <==> id in s.entries && s.entries[id].state.Retired?)
  {
    FindsBinding(p.bindings, id);
  }

  /** Whatever snapshot is used, the resolved binding is for the requested source or there is none. */
  lemma ExplicitNeverSubstitutes(s: Registry, id: Text, p: PlaybackSnapshot)
    ensures var r := ResolveExplicitCapture(s, id, p);
            && (r.Ok? ==> r.value.sourceId == id && r.value in p.bindings)
            && (p.identity != SnapshotOf(s) ==> r == Err(NotRegistered(SnapshotStale(s.revision, p.identity.revision))))
  {
    FindsBinding(p.bindings, id);
  }

  lemma DefaultResolvesIff(s: Registry, p: PlaybackSnapshot)
    requires Consistent(s, p)
    ensures var r := ResolveDefaultCapture(s, p);
            && (r.Ok? <==> exists id :: id in p.sources && p.sources[id].isDefaultPlayback)
            && (r.Ok? ==> r.value in p.bindings && BindsLive(s, r.value) && p.sources[r.value.sourceId].isDefaultPlayback)
            && (r.Err? ==> r.error == DefaultPlaybackUnavailable)
  {
  }

  /** Resolving at a portable token is resolving now, if and only if the token is the current one. */
  lemma PortableResolves(s: Registry, id: Text, identity: DiscoverySnapshot)
    ensures ResolveAtRevision(s, id, PortableRevision(identity)) ==
            if identity == SnapshotOf(s) then Registered(Resolved(s, id, identity)) else Err(PortableSnapshotStale)
  {
    PortableRevisionIsInjective(SnapshotOf(s), identity);
  }

  // ----- the default source -----

  lemma {:induction false} DescribableIff(all: seq<Endpoint>, n: nat, o: Endpoint)
    requires n <= |all|
    ensures o in Classify(all, all[..n]).describable <==>
            o in all[..n] && o.continuity.Stable? && StableCount(all, o.continuity.evidence) == 1
    decreases n
  {
    if n > 0 {
      assert all[..n][..n - 1] == all[..n - 1] && all[..n] == all[..n - 1] + [all[n - 1]];
      DescribableIff(all, n - 1, o);
    }
  }

  lemma {:induction false} DefaultsCount(active: seq<Endpoint>, a: Endpoint, b: Endpoint)
    requires a in active && a.isDefault
    ensures DefaultCount(active) >= 1
    ensures b in active && b.isDefault && a != b ==> DefaultCount(active) >= 2
  {
    var before, last := active[..|active| - 1], active[|active| - 1];
    assert active == before + [last];
    if a in before {
      DefaultsCount(before, a, b);
    } else if b in before && b.isDefault {
      DefaultsCount(before, b, a);
    }
  }

  lemma {:induction false} DefaultIdIff(entries: Entries, describable: seq<Endpoint>, o: Endpoint)
    requires AtMostOneOpen(entries) && o in describable && o.isDefault && o.continuity.Stable?
    requires forall other :: other in describable && other.isDefault ==> other == o
    ensures DefaultId(entries, describable) == SourceIdForContinuity(entries, o.continuity.evidence)
    decreases |describable|
  {
    if describable[0] != o {
      assert describable == [describable[0]] + describable[1..];
      DefaultIdIff(entries, describable[1..], o);
    }
  }

  /** A source is the default exactly when the one active default endpoint is the only one to show its evidence. */
  lemma DefaultIff(s: Registry, active: seq<Endpoint>, id: Text)
    requires s.Sound() && DefaultCount(active) <= 1
    ensures var describable := Classify(active, active).describable;
            DefaultId(s.entries, describable) == Some(id) <==>
            exists o :: o in active && o.isDefault && o.continuity.Stable?
                        && StableCount(active, o.continuity.evidence) == 1
                        && SourceIdForContinuity(s.entries, o.continuity.evidence) == Some(id)
  {
    var describable := Classify(active, active).describable;
    assert active[..|active|] == active;
    forall o
      ensures o in describable <==>
              o in active && o.continuity.Stable? && StableCount(active, o.continuity.evidence) == 1
    {
      DescribableIff(active, |active|, o);
    }
    if exists o :: o in describable && o.isDefault {
      var o :| o in describable && o.isDefault;
      forall other | other in active && other.isDefault
        ensures other == o
      {
        DefaultsCount(active, o, other);
      }
      DefaultIdIff(s.entries, describable, o);
    } else {
      NoDefault(s.entries, describable);
    }
  }

  lemma {:induction false} NoDefault(entries: Entries, describable: seq<Endpoint>)
    requires AtMostOneOpen(entries) && forall o :: o in describable ==> !o.isDefault
    ensures DefaultId(entries, describable).None?
    decreases |describable|
  {
    if describable != [] {
      assert describable[0] in describable;
      NoDefault(entries, describable[1..]);
    }
  }

  // ----- all refreshes of one process -----

  datatype Call = Call(endpoints: Option<seq<Endpoint>>, persists: bool, persistsAgain: bool)

  function Called(d: DiscoveryFacts, call: Call): Refreshing
    requires d.registry.Sound()
  {
    Refresh(d, call.endpoints, call.persists, call.persistsAgain)
  }

  /** Revision and sequence number stay clear of the end of their type. */
  predicate HasHeadroom(d: DiscoveryFacts, call: Call) {
    && d.registry.revision + 2 <= U64_MAX
    && (call.endpoints.Some? ==> d.registry.nextSequence + |call.endpoints.value| <= U64_MAX)
  }

  ghost predicate IsDiscoveryRun(states: seq<DiscoveryFacts>, calls: seq<Call>) {
    && |states| == |calls| + 1
    && IsLoaded(states[0].registry) && states[0].last.None?
    && forall i :: 0 <= i < |calls| ==>
         && states[i].registry.Sound() && HasHeadroom(states[i], calls[i])
         && states[i + 1] == Called(states[i], calls[i]).facts
  }

  /** What loading or creating a registry guarantees. */
  ghost predicate IsLoaded(s: Registry) {
    s.Sound() && SequenceCovers(s.entries, s.nextSequence)
  }

  lemma {:induction false} FewerActive(endpoints: seq<Endpoint>)
    ensures |ActiveOf(endpoints)| <= |endpoints|
  {
    if endpoints != [] {
      FewerActive(endpoints[..|endpoints| - 1]);
    }
  }

  lemma {:induction false} FewerObservations(all: seq<Endpoint>, part: seq<Endpoint>)
    ensures |Classify(all, part).observations| <= |part|
  {
    if part != [] {
      FewerObservations(all, part[..|part| - 1]);
    }
  }

  /** With headroom the registry takes every observation. */
  lemma CallReconciles(d: DiscoveryFacts, call: Call)
    requires IsLoaded(d.registry) && HasHeadroom(d, call) && call.endpoints.Some?
    ensures var active := ActiveOf(call.endpoints.value);
            var list := Classify(active, active).observations;
            Reconcile(d.registry, list).ok && IsLoaded(Refreshed(d.registry, list))
  {
    var active := ActiveOf(call.endpoints.value);
    FewerActive(call.endpoints.value);
    FewerObservations(active, active);
    RefreshAllocates(d.registry, Classify(active, active).observations);
  }

  /** What one call, successful or not, makes of the facts. */
  ghost predicate Follows(d: DiscoveryFacts, next: DiscoveryFacts) {
    && IsLoaded(next.registry) && next.registry.namespace == d.registry.namespace
    && d.registry.revision <= next.registry.revision
    && (d.registry.revision == next.registry.revision ==> d.registry == next.registry)
    && (next.last == d.last
        || (&& next.last.Some? && Consistent(next.registry, next.last.value)
            && (d.last.None? ==> d.registry.revision < next.registry.revision)
            && (d.last.Some? && d.last.value.identity.revision == next.registry.revision ==>
                  d.last.value.sources == next.last.value.sources)))
  }

  lemma RefreshRevision(s: Registry, list: seq<Observation>)
    requires s.Sound() && s.revision < U64_MAX && Reconcile(s, list).ok
    ensures Refreshed(s, list) == s || Refreshed(s, list).revision == s.revision + 1
    ensures Refreshed(s, list).namespace == s.namespace
  {
    UnchangedIff(s, list);
  }

  lemma CallFollows(d: DiscoveryFacts, call: Call)
    requires IsLoaded(d.registry) && HasHeadroom(d, call)
    ensures Follows(d, Called(d, call).facts)
  {
    if call.endpoints.Some? {
      CallReconciles(d, call);
    }
    if Called(d, call).result.Ok? {
      RefreshIsConsistent(d, call.endpoints, call.persists, call.persistsAgain);
    }
    if call.endpoints.Some? {
      var active := ActiveOf(call.endpoints.value);
      RefreshRevision(d.registry, Classify(active, active).observations);
    }
  }

  lemma {:induction false} RunIsSound(states: seq<DiscoveryFacts>, calls: seq<Call>, i: nat)
    requires IsDiscoveryRun(states, calls) && i <= |calls|
    ensures IsLoaded(states[i].registry)
    ensures states[0].registry.revision <= states[i].registry.revision
    ensures states[i].last.Some? ==>
              && states[0].registry.revision < states[i].last.value.identity.revision <= states[i].registry.revision
              && (states[i].last.value.identity.revision == states[i].registry.revision ==>
                    Consistent(states[i].registry, states[i].last.value))
  {
    if i > 0 {
      RunIsSound(states, calls, i - 1);
      CallFollows(states[i - 1], calls[i - 1]);
    }
  }

  /** While the revision does not move, the registry and the described sources do not either. */
  lemma {:induction false} RevisionFixesSources(states: seq<DiscoveryFacts>, calls: seq<Call>, i: nat, j: nat)
    requires IsDiscoveryRun(states, calls) && i <= j <= |calls|
    requires states[i].last.Some? && states[i].registry.Sound() && Consistent(states[i].registry, states[i].last.value)
    ensures states[i].registry.revision <= states[j].registry.revision
    ensures states[i].registry.revision == states[j].registry.revision ==>
              && states[j].registry == states[i].registry
              && states[j].last.Some? && states[j].last.value.sources == states[i].last.value.sources
              && Consistent(states[j].registry, states[j].last.value)
    decreases j
  {
    if i < j {
      RevisionFixesSources(states, calls, i, j - 1);
      RunIsSound(states, calls, j - 1);
      CallFollows(states[j - 1], calls[j - 1]);
    }
  }

  /** The two snapshots offer the same sources and the same captures. */
  ghost predicate SameOffer(a: PlaybackSnapshot, b: PlaybackSnapshot) {
    && a.sources == b.sources && a.defaultBinding == b.defaultBinding
    && (forall binding :: binding in a.bindings <==> binding in b.bindings)
  }

  lemma ConsistentOffersAgree(s: Registry, a: PlaybackSnapshot, b: PlaybackSnapshot)
    requires Consistent(s, a) && Consistent(s, b) && a.sources == b.sources
    ensures SameOffer(a, b)
  {
    BindingsAgree(s, a, b);
    BindingsAgree(s, b, a);
    DefaultsAgree(s, a, b);
    DefaultsAgree(s, b, a);
  }

  lemma BindingsAgree(s: Registry, a: PlaybackSnapshot, b: PlaybackSnapshot)
    requires Consistent(s, a) && Consistent(s, b)
    ensures forall binding :: binding in a.bindings ==> binding in b.bindings
  {
    forall binding | binding in a.bindings
      ensures binding in b.bindings
    {
      var k :| 0 <= k < |a.bindings| && a.bindings[k] == binding;
      assert BindsLive(s, a.bindings[k]);
      var j :| 0 <= j < |b.bindings| && b.bindings[j].sourceId == binding.sourceId;
      assert BindsLive(s, b.bindings[j]);
    }
  }

  lemma DefaultsAgree(s: Registry, a: PlaybackSnapshot, b: PlaybackSnapshot)
    requires Consistent(s, a) && Consistent(s, b) && a.sources == b.sources
    ensures a.defaultBinding.Some? ==> b.defaultBinding == a.defaultBinding
  {
    if a.defaultBinding.Some? {
      var k :| 0 <= k < |a.bindings| && a.bindings[k] == a.defaultBinding.value;
      var j :| 0 <= j < |b.bindings| && b.bindings[j] == b.defaultBinding.value;
      assert BindsLive(s, a.bindings[k]) && BindsLive(s, b.bindings[j]);
    }
  }

  /** Two snapshots of one process with the same revision offer the same sources and captures. */
  lemma EqualRevisionsOfferTheSame(states: seq<DiscoveryFacts>, calls: seq<Call>, i: nat, j: nat)
    requires IsDiscoveryRun(states, calls) && i <= j < |calls|
    requires states[i].registry.Sound() && states[j].registry.Sound()
    requires Called(states[i], calls[i]).result.Ok? && Called(states[j], calls[j]).result.Ok?
    ensures var a, b := Called(states[i], calls[i]).result.value, Called(states[j], calls[j]).result.value;
            && a.identity.revision <= b.identity.revision
            && (a.identity.revision == b.identity.revision ==> a.identity == b.identity && SameOffer(a, b))
  {
    RefreshIsConsistent(states[i], calls[i].endpoints, calls[i].persists, calls[i].persistsAgain);
    RefreshIsConsistent(states[j], calls[j].endpoints, calls[j].persists, calls[j].persistsAgain);
    RevisionFixesSources(states, calls, i + 1, j + 1);
    var a, b := Called(states[i], calls[i]).result.value, Called(states[j], calls[j]).result.value;
    if a.identity.revision == b.identity.revision {
      ConsistentOffersAgree(states[j + 1].registry, a, b);
    }
  }

  /**
   At any later moment, a snapshot that is still current still describes the registry: a source
   resolves against it exactly when it is live, to its own endpoint.
   */
  lemma CurrentSnapshotResolves(states: seq<DiscoveryFacts>, calls: seq<Call>, i: nat, j: nat, id: Text)
    requires IsDiscoveryRun(states, calls) && i < j <= |calls|
    requires states[i].registry.Sound() && Called(states[i], calls[i]).result.Ok?
    ensures var p, s := Called(states[i], calls[i]).result.value, states[j].registry;
            var r := ResolveExplicitCapture(s, id, p);
            if p.identity == SnapshotOf(s) then
              && (r.Ok? <==> id in s.entries && s.entries[id].state.Live?)
              && (r.Ok? ==> r.value.sourceId == id && r.value.endpointId == s.entries[id].evidence.backendKey)
              && (r.Err? ==> r.error.NotRegistered?)
            else r.Err? && r.error.NotRegistered? && r.error.error.SnapshotStale?
  {
    RefreshIsConsistent(states[i], calls[i].endpoints, calls[i].persists, calls[i].persistsAgain);
    RevisionFixesSources(states, calls, i + 1, j);
    var p, s := Called(states[i], calls[i]).result.value, states[j].registry;
    if p.identity == SnapshotOf(s) {
      ExplicitResolvesIff(s, id, p);
    } else {
      ExplicitNeverSubstitutes(s, id, p);
    }
  }

  /** The first snapshot of a process never has the revision the registry was loaded with. */
  lemma FirstSnapshotIsNew(states: seq<DiscoveryFacts>, calls: seq<Call>, i: nat)
    requires IsDiscoveryRun(states, calls) && i < |calls|
    requires states[i].registry.Sound() && Called(states[i], calls[i]).result.Ok?
    ensures Called(states[i], calls[i]).result.value.identity.revision > states[0].registry.revision
  {
    RefreshIsConsistent(states[i], calls[i].endpoints, calls[i].persists, calls[i].persistsAgain);
    RunIsSound(states, calls, i + 1);
  }

  // ----- a capture binding, later -----

  /** A refresh that succeeds and leaves the registry at this revision. */
  predicate LeavesRevision(again: Refreshing, revision: u64) {
    again.result.Ok? && again.facts.registry.revision == revision
  }

  /** What call `i` found is what any later call finds that leaves the revision where it was. */
  lemma LaterCallAgrees(states: seq<DiscoveryFacts>, calls: seq<Call>, i: nat, j: nat)
    requires IsDiscoveryRun(states, calls) && i < j < |calls|
    requires states[i].registry.Sound() && states[j].registry.Sound()
    requires Called(states[i], calls[i]).result.Ok? && Called(states[j], calls[j]).result.Ok?
    ensures var first, again := Called(states[i], calls[i]), Called(states[j], calls[j]);
            && Consistent(first.facts.registry, first.result.value)
            && Consistent(again.facts.registry, again.result.value)
            && (first.facts.registry.revision == again.facts.registry.revision ==>
                  first.facts.registry == again.facts.registry && SameOffer(first.result.value, again.result.value))
  {
    RefreshIsConsistent(states[i], calls[i].endpoints, calls[i].persists, calls[i].persistsAgain);
    RefreshIsConsistent(states[j], calls[j].endpoints, calls[j].persists, calls[j].persistsAgain);
    RevisionFixesSources(states, calls, i + 1, j + 1);
    EqualRevisionsOfferTheSame(states, calls, i, j);
  }

  /** The only binding a consistent snapshot has for a source. */
  lemma OneBindingEach(p: PlaybackSnapshot, a: Binding, b: Binding)
    requires OnceEach(p.bindings) && a in p.bindings && b in p.bindings && a.sourceId == b.sourceId
    ensures a == b
  {
    var i :| 0 <= i < |p.bindings| && p.bindings[i] == a;
    var j :| 0 <= j < |p.bindings| && p.bindings[j] == b;
  }

  /**
   Within a process, a capture binding resolved by one call is still good at a later one exactly when
   that call succeeds and leaves the registry at the binding's revision.
   */
  lemma RevalidatesIff(states: seq<DiscoveryFacts>, calls: seq<Call>, i: nat, j: nat, binding: Binding)
    requires IsDiscoveryRun(states, calls) && i < j < |calls|
    requires states[i].registry.Sound() && states[j].registry.Sound()
    requires GivesAgain(Called(states[i], calls[i]), binding)
    ensures GivesAgain(Called(states[j], calls[j]), binding) <==>
            LeavesRevision(Called(states[j], calls[j]), binding.identity.revision)
  {
    var first, again := Called(states[i], calls[i]), Called(states[j], calls[j]);
    if again.result.Ok? {
      LaterCallAgrees(states, calls, i, j);
      ExplicitResolvesIff(first.facts.registry, binding.sourceId, first.result.value);
      ExplicitResolvesIff(again.facts.registry, binding.sourceId, again.result.value);
      if LeavesRevision(again, binding.identity.revision) {
        var now := ResolveExplicitCapture(again.facts.registry, binding.sourceId, again.result.value).value;
        OneBindingEach(again.result.value, now, binding);
      }
    }
  }

  /** So is the default: it cannot change without the revision. */
  lemma DefaultRevalidatesIff(states: seq<DiscoveryFacts>, calls: seq<Call>, i: nat, j: nat, binding: Binding)
    requires IsDiscoveryRun(states, calls) && i < j < |calls|
    requires states[i].registry.Sound() && states[j].registry.Sound()
    requires GivesDefaultAgain(Called(states[i], calls[i]), binding)
    ensures GivesDefaultAgain(Called(states[j], calls[j]), binding) <==>
            LeavesRevision(Called(states[j], calls[j]), binding.identity.revision)
  {
    var first, again := Called(states[i], calls[i]), Called(states[j], calls[j]);
    if again.result.Ok? {
      LaterCallAgrees(states, calls, i, j);
      DefaultResolvesIff(first.facts.registry, first.result.value);
      DefaultResolvesIff(again.facts.registry, again.result.value);
    }
  }
}
