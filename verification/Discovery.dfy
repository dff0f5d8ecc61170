/** Playback discovery over the identity registry (crates/resonance-agent/src/discovery.rs). */
module Discovery {
  import opened Base
  import opened Identity
  import opened IdentityRuns
  import opened IdentityStore
  import opened RegistryText
  import opened Texts

  datatype EndpointState = EndpointActive | EndpointDisabled | EndpointNotPresent | EndpointUnplugged

  datatype Endpoint = Endpoint(displayName: Text, state: EndpointState, continuity: Continuity, isDefault: bool)

  /** Kind and products are the same for every source, and the id is the key it is stored under. */
  datatype Descriptor = Descriptor(displayName: Text, isAvailable: bool, isDefaultPlayback: bool)

  datatype Binding = Binding(identity: DiscoverySnapshot, sourceId: Text, endpointId: Text)

  datatype PlaybackSnapshot = PlaybackSnapshot(
    identity: DiscoverySnapshot,
    sources: map<Text, Descriptor>,
    bindings: seq<Binding>,
    defaultBinding: Option<Binding>)

  datatype DiscoveryError =
    | EndpointEnumeration
    | ConflictingDefaultPlaybackEndpoints
    | DefaultPlaybackUnavailable
    | ExplicitSourceUnavailable
    | CaptureBindingStale
    | PortableSnapshotStale
    | NotRegistered(error: RegistryError)

  // ----- sorting the endpoints -----

  function ActiveOf(endpoints: seq<Endpoint>): seq<Endpoint> {
    if endpoints == [] then []
    else
      var before, last := ActiveOf(endpoints[..|endpoints| - 1]), endpoints[|endpoints| - 1];
      if last.state.EndpointActive? then before + [last] else before
  }

  function DefaultCount(active: seq<Endpoint>): nat {
    if active == [] then 0
    else DefaultCount(active[..|active| - 1]) + if active[|active| - 1].isDefault then 1 else 0
  }

  predicate Shows(o: Endpoint, e: Evidence) {
    o.continuity == Stable(e)
  }

  function StableCount(active: seq<Endpoint>, e: Evidence): nat {
    if active == [] then 0
    else StableCount(active[..|active| - 1], e) + if Shows(active[|active| - 1], e) then 1 else 0
  }

  /** What the registry is told, the endpoints that can be described, and the evidence found twice. */
  datatype Classified =
    Classified(observations: seq<Observation>, describable: seq<Endpoint>, duplicates: set<Evidence>)

  function ClassifyOne(all: seq<Endpoint>, c: Classified, o: Endpoint): Classified {
    match o.continuity
    case Stable(e) =>
      if StableCount(all, e) == 1 then
        c.(observations := c.observations + [Observation(o.displayName, o.continuity)],
           describable := c.describable + [o])
      else if e in c.duplicates then c
      else
        c.(observations := c.observations + [Observation(o.displayName, Ambiguous([e]))],
           duplicates := c.duplicates + {e})
    case Ambiguous(_) => c.(observations := c.observations + [Observation(o.displayName, o.continuity)])
    case UnknownContinuity => c.(observations := c.observations + [Observation(o.displayName, o.continuity)])
  }

  function Classify(all: seq<Endpoint>, part: seq<Endpoint>): Classified {
    if part == [] then Classified([], [], {})
    else ClassifyOne(all, Classify(all, part[..|part| - 1]), part[|part| - 1])
  }

  // ----- describing the sources -----

  function DefaultId(entries: Entries, describable: seq<Endpoint>): Option<Text>
    requires AtMostOneOpen(entries)
    decreases |describable|
  {
    if describable == [] then None
    else if describable[0].isDefault then
      if describable[0].continuity.Stable? then SourceIdForContinuity(entries, describable[0].continuity.evidence)
      else None
    else DefaultId(entries, describable[1..])
  }

  function Describe(entries: Entries, defaultId: Option<Text>): map<Text, Descriptor> {
    var known := KnownSources(entries);
    map id | id in known :: Descriptor(known[id].displayName, known[id].isAvailable, Some(id) == defaultId)
  }

  function BindingFor(s: Registry, o: Endpoint): Option<Binding>
    requires s.Sound()
  {
    if !o.continuity.Stable? || !HasOpen(s.entries, o.continuity.evidence) then None
    else
      Some(Binding(SnapshotOf(s), OpenId(s.entries, o.continuity.evidence), o.continuity.evidence.backendKey))
  }

  function Bind(s: Registry, describable: seq<Endpoint>): seq<Binding>
    requires s.Sound()
  {
    if describable == [] then []
    else
      var before, last := Bind(s, describable[..|describable| - 1]), BindingFor(s, describable[|describable| - 1]);
      if last.Some? then before + [last.value] else before
  }

  function FindBinding(bindings: seq<Binding>, id: Text): Option<Binding> {
    if bindings == [] then None
    else if bindings[0].sourceId == id then Some(bindings[0])
    else FindBinding(bindings[1..], id)
  }

  function Snapshot(s: Registry, describable: seq<Endpoint>): PlaybackSnapshot
    requires s.Sound()
  {
    var defaultId, bindings := DefaultId(s.entries, describable), Bind(s, describable);
    PlaybackSnapshot(SnapshotOf(s), Describe(s.entries, defaultId), bindings,
                     if defaultId.None? then None else FindBinding(bindings, defaultId.value))
  }

  // ----- one refresh -----

  datatype DiscoveryFacts = DiscoveryFacts(registry: Registry, last: Option<PlaybackSnapshot>)

  datatype Refreshing = Refreshing(facts: DiscoveryFacts, result: Result<PlaybackSnapshot, DiscoveryError>)

  /** A first snapshot, or one whose sources differ, must not reuse the revision it would otherwise have. */
  predicate NeedsNewRevision(d: DiscoveryFacts, revisionNow: u64, sources: map<Text, Descriptor>) {
    match d.last
    case None => revisionNow == d.registry.revision
    case Some(previous) => previous.sources != sources && previous.identity.revision == revisionNow
  }

  function RefreshActive(d: DiscoveryFacts, active: seq<Endpoint>, persists: bool, persistsAgain: bool): Refreshing
    requires d.registry.Sound()
  {
    var c := Classify(active, active);
    var refreshed := Refreshed(d.registry, c.observations);
    match RefreshResult(d.registry, c.observations, persists)
    case Err(error) => Refreshing(d.(registry := refreshed), Err(NotRegistered(error)))
    case Ok(_) =>
      var snapshot := Snapshot(refreshed, c.describable);
      if !NeedsNewRevision(d, refreshed.revision, snapshot.sources) then
        Refreshing(DiscoveryFacts(refreshed, Some(snapshot)), Ok(snapshot))
      else
        var advanced := After(refreshed, Advance);
        if !persistsAgain then Refreshing(d.(registry := advanced), Err(NotRegistered(Io)))
        else
          var again := Snapshot(advanced, c.describable);
          Refreshing(DiscoveryFacts(advanced, Some(again)), Ok(again))
  }

  /** `endpoints` is what the operating system lists, if it does. */
  function Refresh(d: DiscoveryFacts, endpoints: Option<seq<Endpoint>>, persists: bool, persistsAgain: bool): Refreshing
    requires d.registry.Sound()
  {
    if endpoints.None? then Refreshing(d, Err(EndpointEnumeration))
    else
      var active := ActiveOf(endpoints.value);
      if DefaultCount(active) > 1 then Refreshing(d, Err(ConflictingDefaultPlaybackEndpoints))
      else RefreshActive(d, active, persists, persistsAgain)
  }

  // ----- resolving -----

  function Registered<T>(r: Result<T, RegistryError>): Result<T, DiscoveryError> {
    match r
    case Ok(value) => Ok(value)
    case Err(error) => Err(NotRegistered(error))
  }

  function ResolveExplicitCapture(s: Registry, id: Text, snapshot: PlaybackSnapshot): Result<Binding, DiscoveryError> {
    var resolved :- Registered(Resolved(s, id, snapshot.identity));
    OkOr(FindBinding(snapshot.bindings, resolved), ExplicitSourceUnavailable)
  }

  function ResolveDefaultCapture(s: Registry, snapshot: PlaybackSnapshot): Result<Binding, DiscoveryError> {
    var _ :- Registered(Validated(s, snapshot.identity));
    OkOr(snapshot.defaultBinding, DefaultPlaybackUnavailable)
  }

  /** A refresh that resolves the binding's source, or the default, to this very binding again. */
  predicate GivesAgain(again: Refreshing, binding: Binding) {
    && again.result.Ok?
    && ResolveExplicitCapture(again.facts.registry, binding.sourceId, again.result.value) == Ok(binding)
  }

  predicate GivesDefaultAgain(again: Refreshing, binding: Binding) {
    && again.result.Ok?
    && ResolveDefaultCapture(again.facts.registry, again.result.value) == Ok(binding)
  }

  /** `{length of the namespace}|{namespace}|{revision}` */
  function PortableRevision(identity: DiscoverySnapshot): Text {
    PrintNat(|identity.namespace|) + [BAR] + (identity.namespace + [BAR] + PrintNat(identity.revision))
  }

  function ResolveAtRevision(s: Registry, id: Text, revision: Text): Result<Text, DiscoveryError> {
    if PortableRevision(SnapshotOf(s)) != revision then Err(PortableSnapshotStale)
    else Registered(Resolved(s, id, SnapshotOf(s)))
  }

  /** Portable tokens are equal only for the same namespace at the same revision. */
  lemma PortableRevisionIsInjective(a: DiscoverySnapshot, b: DiscoverySnapshot)
    ensures PortableRevision(a) == PortableRevision(b) <==> a == b
  {
    if PortableRevision(a) == PortableRevision(b) {
      TokenParts(a);
      TokenParts(b);
      PrintIsInjective(a.revision, b.revision);
      AfterLastIsTail(a.namespace, BAR, PrintNat(a.revision));
      assert |a.namespace| == |b.namespace| by {
        PrintIsInjective(|a.namespace|, |b.namespace|);
      }
      assert (a.namespace + [BAR] + PrintNat(a.revision))[..|a.namespace|] == a.namespace;
      assert (b.namespace + [BAR] + PrintNat(b.revision))[..|b.namespace|] == b.namespace;
    }
  }

  lemma TokenParts(a: DiscoverySnapshot)
    ensures SplitOnce(PortableRevision(a), BAR)
         == Some((PrintNat(|a.namespace|), a.namespace + [BAR] + PrintNat(a.revision)))
    ensures AfterLast(PortableRevision(a), BAR) == Some(PrintNat(a.revision))
  {
    var length, digits := PrintNat(|a.namespace|), PrintNat(a.revision);
    assert forall k :: 0 <= k < |length| ==> IsDigit(length[k]);
    assert forall k :: 0 <= k < |digits| ==> IsDigit(digits[k]);
    SplitOnceAt(length, BAR, a.namespace + [BAR] + digits);
    AfterLastIsTail(length + [BAR] + a.namespace, BAR, digits);
    assert PortableRevision(a) == length + [BAR] + a.namespace + [BAR] + digits;
  }
}
