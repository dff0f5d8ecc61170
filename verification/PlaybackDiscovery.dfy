/** Playback discovery as the object that refreshes its registry in place (crates/resonance-agent/src/discovery.rs). */
module PlaybackDiscovery {
  import opened Base
  import opened Discovery
  import opened Identity
  import opened IdentityStore
  import opened Texts

  class Discoverer {
    const registry: IdentityRegistry
    var lastSnapshot: Option<PlaybackSnapshot>

    function Value(): DiscoveryFacts
      reads this, registry
    {
      DiscoveryFacts(registry.Value(), lastSnapshot)
    }

    constructor (image: Registry)
      ensures fresh(registry) && Value() == DiscoveryFacts(image, None)
    {
      registry := new IdentityRegistry(image);
      lastSnapshot := None;
    }

    static method FilterActive(endpoints: seq<Endpoint>) returns (active: seq<Endpoint>)
      ensures active == ActiveOf(endpoints)
    {
      active := [];
      for i := 0 to |endpoints|
        invariant active == ActiveOf(endpoints[..i])
      {
        assert endpoints[..i + 1][..i] == endpoints[..i];
        if endpoints[i].state.EndpointActive? {
          active := active + [endpoints[i]];
        }
      }
      assert endpoints[..|endpoints|] == endpoints;
    }

    static method CountDefaults(active: seq<Endpoint>) returns (count: nat)
      ensures count == DefaultCount(active)
    {
      count := 0;
      for i := 0 to |active|
        invariant count == DefaultCount(active[..i])
      {
        assert active[..i + 1][..i] == active[..i];
        if active[i].isDefault {
          count := count + 1;
        }
      }
      assert active[..|active|] == active;
    }

    static method StableContinuityCounts(active: seq<Endpoint>) returns (counts: map<Evidence, nat>)
      ensures forall e :: StableCount(active, e) == if e in counts then counts[e] else 0
    {
      counts := map[];
      for i := 0 to |active|
        invariant forall e :: StableCount(active[..i], e) == if e in counts then counts[e] else 0
      {
        assert active[..i + 1][..i] == active[..i];
        if active[i].continuity.Stable? {
          var e := active[i].continuity.evidence;
          counts := counts[e := (if e in counts then counts[e] else 0) + 1];
        }
      }
      assert active[..|active|] == active;
    }

    static method ClassifyActive(active: seq<Endpoint>) returns (c: Classified)
      ensures c == Classify(active, active)
    {
      var counts := StableContinuityCounts(active);
      var observations: seq<Observation>, describable: seq<Endpoint>, duplicates: set<Evidence> := [], [], {};
      for i := 0 to |active|
        invariant Classify(active, active[..i]) == Classified(observations, describable, duplicates)
      {
        assert active[..i + 1][..i] == active[..i];
        var o := active[i];
        match o.continuity
        case Stable(e) =>
          if e in counts && counts[e] == 1 {
            observations := observations + [Observation(o.displayName, o.continuity)];
            describable := describable + [o];
          } else if e !in duplicates {
            duplicates := duplicates + {e};
            observations := observations + [Observation(o.displayName, Ambiguous([e]))];
          }
        case Ambiguous(_) => observations := observations + [Observation(o.displayName, o.continuity)];
        case UnknownContinuity => observations := observations + [Observation(o.displayName, o.continuity)];
      }
      assert active[..|active|] == active;
      return Classified(observations, describable, duplicates);
    }

    method FindDefault(describable: seq<Endpoint>) returns (id: Option<Text>)
      requires registry.Value().Sound()
      ensures id == DefaultId(registry.entries, describable)
    {
      for i := 0 to |describable|
        invariant DefaultId(registry.entries, describable) == DefaultId(registry.entries, describable[i..])
      {
        assert describable[i..][1..] == describable[i + 1..];
        if describable[i].isDefault {
          if !describable[i].continuity.Stable? {
            return None;
          }
          id := registry.FindOpenSourceId(describable[i].continuity.evidence);
          return;
        }
      }
      return None;
    }

    method BindCaptures(describable: seq<Endpoint>) returns (bindings: seq<Binding>)
      requires registry.Value().Sound()
      ensures bindings == Bind(registry.Value(), describable)
    {
      bindings := [];
      for i := 0 to |describable|
        invariant bindings == Bind(registry.Value(), describable[..i])
      {
        assert describable[..i + 1][..i] == describable[..i];
        if describable[i].continuity.Stable? {
          var e := describable[i].continuity.evidence;
          var id := registry.FindOpenSourceId(e);
          if id.Some? {
            var identity := DiscoverySnapshot(registry.namespace, registry.revision);
            bindings := bindings + [Binding(identity, id.value, e.backendKey)];
          }
        }
      }
      assert describable[..|describable|] == describable;
    }

    method TakeSnapshot(describable: seq<Endpoint>) returns (p: PlaybackSnapshot)
      requires registry.Value().Sound()
      ensures p == Snapshot(registry.Value(), describable)
    {
      var defaultId := FindDefault(describable);
      var bindings := BindCaptures(describable);
      p := PlaybackSnapshot(
        DiscoverySnapshot(registry.namespace, registry.revision), Describe(registry.entries, defaultId), bindings,
        if defaultId.None? then None else FindBinding(bindings, defaultId.value));
    }

    /** The snapshot carries a new identity, in itself and in every binding. */
    static method Rebind(p: PlaybackSnapshot, identity: DiscoverySnapshot) returns (r: PlaybackSnapshot)
      ensures r.identity == identity && r.sources == p.sources && |r.bindings| == |p.bindings|
      ensures forall k :: 0 <= k < |p.bindings| ==> r.bindings[k] == p.bindings[k].(identity := identity)
      ensures r.defaultBinding == match p.defaultBinding case None => None case Some(b) => Some(b.(identity := identity))
    {
      var bindings: seq<Binding> := [];
      for i := 0 to |p.bindings|
        invariant |bindings| == i
        invariant forall k :: 0 <= k < i ==> bindings[k] == p.bindings[k].(identity := identity)
      {
        bindings := bindings + [p.bindings[i].(identity := identity)];
      }
      var defaultBinding := if p.defaultBinding.Some? then Some(p.defaultBinding.value.(identity := identity)) else None;
      return PlaybackSnapshot(identity, p.sources, bindings, defaultBinding);
    }

    /** A snapshot taken before the revision advanced and rebound is the one taken after. */
    static lemma ReboundIsRetaken(s: Registry, next: Registry, describable: seq<Endpoint>, r: PlaybackSnapshot)
      requires s.Sound() && next == s.(revision := next.revision)
      requires var p := Snapshot(s, describable);
               && r.identity == SnapshotOf(next) && r.sources == p.sources && |r.bindings| == |p.bindings|
               && (forall k :: 0 <= k < |p.bindings| ==> r.bindings[k] == p.bindings[k].(identity := r.identity))
               && r.defaultBinding == match p.defaultBinding
                                      case None => None
                                      case Some(b) => Some(b.(identity := r.identity))
      ensures r == Snapshot(next, describable)
    {
      BindingsRebound(s, next, describable);
      var defaultId := DefaultId(s.entries, describable);
      assert r.bindings == Bind(next, describable);
      if defaultId.Some? {
        FoundRebound(Bind(s, describable), Bind(next, describable), SnapshotOf(next), defaultId.value);
      }
    }

    static lemma {:induction false} BindingsRebound(s: Registry, next: Registry, describable: seq<Endpoint>)
      requires s.Sound() && next == s.(revision := next.revision)
      ensures |Bind(next, describable)| == |Bind(s, describable)|
      ensures forall k :: 0 <= k < |Bind(s, describable)| ==>
                Bind(next, describable)[k] == Bind(s, describable)[k].(identity := SnapshotOf(next))
    {
      if describable != [] {
        BindingsRebound(s, next, describable[..|describable| - 1]);
      }
    }

    static lemma {:induction false} FoundRebound(
      bindings: seq<Binding>, rebound: seq<Binding>, identity: DiscoverySnapshot, id: Text)
      requires |rebound| == |bindings|
      requires forall k :: 0 <= k < |bindings| ==> rebound[k] == bindings[k].(identity := identity)
      ensures FindBinding(rebound, id) == match FindBinding(bindings, id)
                                          case None => None
                                          case Some(b) => Some(b.(identity := identity))
    {
      if bindings != [] {
        FoundRebound(bindings[1..], rebound[1..], identity, id);
      }
    }

    method RefreshEndpoints(active: seq<Endpoint>, persists: bool, persistsAgain: bool)
      returns (r: Result<PlaybackSnapshot, DiscoveryError>)
      requires registry.Value().Sound()
      modifies this, registry
      ensures RefreshActive(old(Value()), active, persists, persistsAgain) == Refreshing(Value(), r)
    {
      var c := ClassifyActive(active);
      var before := registry.revision;
      var applied := registry.ApplyObservations(c.observations, persists);
      if applied.Err? {
        return Err(NotRegistered(applied.error));
      }
      var snapshot := TakeSnapshot(c.describable);
      var reopened := lastSnapshot.None? && snapshot.identity.revision == before;
      var changed := lastSnapshot.Some? && lastSnapshot.value.sources != snapshot.sources
                     && lastSnapshot.value.identity.revision == snapshot.identity.revision;
      if reopened || changed {
        ghost var s := registry.Value();
        var advanced := registry.AdvanceRevision(persistsAgain);
        if advanced.Err? {
          return Err(NotRegistered(advanced.error));
        }
        snapshot := Rebind(snapshot, advanced.value);
        ReboundIsRetaken(s, registry.Value(), c.describable, snapshot);
      }
      lastSnapshot := Some(snapshot);
      return Ok(snapshot);
    }

    method RefreshPlayback(endpoints: Option<seq<Endpoint>>, persists: bool, persistsAgain: bool)
      returns (r: Result<PlaybackSnapshot, DiscoveryError>)
      requires registry.Value().Sound()
      modifies this, registry
      ensures Refresh(old(Value()), endpoints, persists, persistsAgain) == Refreshing(Value(), r)
    {
      if endpoints.None? {
        return Err(EndpointEnumeration);
      }
      var active := FilterActive(endpoints.value);
      var defaults := CountDefaults(active);
      if defaults > 1 {
        return Err(ConflictingDefaultPlaybackEndpoints);
      }
      r := RefreshEndpoints(active, persists, persistsAgain);
    }

    /** A capture binding is still good exactly when refreshing now gives the same one. */
    method RevalidateExplicit(binding: Binding, endpoints: Option<seq<Endpoint>>, persists: bool, persistsAgain: bool)
      returns (r: Result<(), DiscoveryError>)
      requires registry.Value().Sound()
      modifies this, registry
      ensures Value() == Refresh(old(Value()), endpoints, persists, persistsAgain).facts
      ensures r.Ok? <==> GivesAgain(Refresh(old(Value()), endpoints, persists, persistsAgain), binding)
      ensures var again := Refresh(old(Value()), endpoints, persists, persistsAgain).result;
              r.Err? ==>
                if again.Err? then r.error == again.error
                else
                  match ResolveExplicitCapture(registry.Value(), binding.sourceId, again.value)
                  case Err(error) => r.error == error
                  case Ok(_) => r.error == CaptureBindingStale
    {
      var snapshot :- RefreshPlayback(endpoints, persists, persistsAgain);
      var current :- ResolveExplicitCapture(registry.Value(), binding.sourceId, snapshot);
      return if current == binding then Ok(()) else Err(CaptureBindingStale);
    }

    method RevalidateDefault(binding: Binding, endpoints: Option<seq<Endpoint>>, persists: bool, persistsAgain: bool)
      returns (r: Result<(), DiscoveryError>)
      requires registry.Value().Sound()
      modifies this, registry
      ensures Value() == Refresh(old(Value()), endpoints, persists, persistsAgain).facts
      ensures r.Ok? <==> GivesDefaultAgain(Refresh(old(Value()), endpoints, persists, persistsAgain), binding)
      ensures var again := Refresh(old(Value()), endpoints, persists, persistsAgain).result;
              r.Err? ==>
                if again.Err? then r.error == again.error
                else
                  match ResolveDefaultCapture(registry.Value(), again.value)
                  case Err(error) => r.error == error
                  case Ok(_) => r.error == CaptureBindingStale
    {
      var snapshot :- RefreshPlayback(endpoints, persists, persistsAgain);
      var current :- ResolveDefaultCapture(registry.Value(), snapshot);
      return if current == binding then Ok(()) else Err(CaptureBindingStale);
    }
  }
}
