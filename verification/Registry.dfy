/**
 * The gateway's connection registry: three indexes over the open sockets, and the
 * per-principal cap checked when a socket connects.
 */
module Registry {
  // A socket object, by identity.
  datatype Ws = Ws(id: nat)

  datatype Principal = Principal(sub: string, tenantId: string)

  // A wrapper object: `serial` is its identity, given when it is created.
  datatype Wrapper = Wrapper(serial: nat, ws: Ws, principal: Principal)

  datatype Indexes = Indexes(
    byTenant: map<string, set<Wrapper>>,
    bySocket: map<Ws, Wrapper>,
    byPrincipal: map<string, nat>,
    created: nat)

  const EMPTY := Indexes(map[], map[], map[], 0)

  function Bucket(s: Indexes, tenantId: string): set<Wrapper> {
    if tenantId in s.byTenant then s.byTenant[tenantId] else {}
  }

  function CountOf(s: Indexes, sub: string): nat {
    if sub in s.byPrincipal then s.byPrincipal[sub] else 0
  }

  function Added(s: Indexes, ws: Ws, principal: Principal): Indexes {
    var wrapper := Wrapper(s.created, ws, principal);
    Indexes(s.byTenant[principal.tenantId := Bucket(s, principal.tenantId) + {wrapper}],
            s.bySocket[ws := wrapper],
            s.byPrincipal[principal.sub := CountOf(s, principal.sub) + 1],
            s.created + 1)
  }

  function WithoutFromBucket(byTenant: map<string, set<Wrapper>>, wrapper: Wrapper): map<string, set<Wrapper>> {
    var tenantId := wrapper.principal.tenantId;
    if tenantId !in byTenant then byTenant
    else if byTenant[tenantId] - {wrapper} == {} then byTenant - {tenantId}
    else byTenant[tenantId := byTenant[tenantId] - {wrapper}]
  }

  function CountedDown(byPrincipal: map<string, nat>, sub: string): map<string, nat> {
    if sub !in byPrincipal || byPrincipal[sub] <= 1 then byPrincipal - {sub}
    else byPrincipal[sub := byPrincipal[sub] - 1]
  }

  function Removed(s: Indexes, ws: Ws): Indexes {
    if ws !in s.bySocket then s
    else
      var wrapper := s.bySocket[ws];
      s.(bySocket := s.bySocket - {ws},
         byTenant := WithoutFromBucket(s.byTenant, wrapper),
         byPrincipal := CountedDown(s.byPrincipal, wrapper.principal.sub))
  }

  // ----------------------------------------------------------------- the invariant

  // The registered sockets of a principal.
  function SocketsOf(bySocket: map<Ws, Wrapper>, sub: string): set<Ws> {
    set ws | ws in bySocket && bySocket[ws].principal.sub == sub
  }

  // The registered wrappers of a tenant.
  function WrappersOf(bySocket: map<Ws, Wrapper>, tenantId: string): set<Wrapper> {
    set ws | ws in bySocket && bySocket[ws].principal.tenantId == tenantId :: bySocket[ws]
  }

  // Each registered socket has its own wrapper, created before.
  predicate SocketsAgree(s: Indexes) {
    forall ws :: ws in s.bySocket ==> s.bySocket[ws].ws == ws && s.bySocket[ws].serial < s.created
  }

  // Tenant buckets partition the registered wrappers, and none is empty.
  ghost predicate TenantsAgree(s: Indexes) {
    (forall tenantId :: Bucket(s, tenantId) == WrappersOf(s.bySocket, tenantId)) &&
    (forall tenantId :: tenantId in s.byTenant ==> s.byTenant[tenantId] != {})
  }

  // Each principal's counter is its number of registered sockets, and none is zero.
  ghost predicate PrincipalsAgree(s: Indexes) {
    (forall sub :: CountOf(s, sub) == |SocketsOf(s.bySocket, sub)|) &&
    (forall sub :: sub in s.byPrincipal ==> s.byPrincipal[sub] > 0)
  }

  ghost predicate Valid(s: Indexes) {
    SocketsAgree(s) && TenantsAgree(s) && PrincipalsAgree(s)
  }

  lemma AddKeepsTenants(s: Indexes, ws: Ws, principal: Principal)
    requires SocketsAgree(s) && TenantsAgree(s) && ws !in s.bySocket
    ensures TenantsAgree(Added(s, ws, principal))
  {
    var after := Added(s, ws, principal);
    var wrapper := Wrapper(s.created, ws, principal);
    forall tenantId
      ensures Bucket(after, tenantId) == WrappersOf(after.bySocket, tenantId)
    {
      assert Bucket(s, tenantId) == WrappersOf(s.bySocket, tenantId);
      forall w
        ensures w in WrappersOf(after.bySocket, tenantId) <==>
                w in WrappersOf(s.bySocket, tenantId) || (w == wrapper && tenantId == principal.tenantId)
      {
        if w in WrappersOf(s.bySocket, tenantId) {
          assert after.bySocket[w.ws] == w;
        }
        if w == wrapper && tenantId == principal.tenantId {
          assert after.bySocket[ws] == w;
        }
      }
    }
  }

  lemma AddKeepsPrincipals(s: Indexes, ws: Ws, principal: Principal)
    requires PrincipalsAgree(s) && ws !in s.bySocket
    ensures PrincipalsAgree(Added(s, ws, principal))
  {
    var after := Added(s, ws, principal);
    forall sub
      ensures CountOf(after, sub) == |SocketsOf(after.bySocket, sub)|
    {
      assert CountOf(s, sub) == |SocketsOf(s.bySocket, sub)|;
      SocketsAfterAdding(s.bySocket, Wrapper(s.created, ws, principal), sub);
    }
  }

  lemma SocketsAfterAdding(bySocket: map<Ws, Wrapper>, wrapper: Wrapper, sub: string)
    requires wrapper.ws !in bySocket
    ensures |SocketsOf(bySocket[wrapper.ws := wrapper], sub)| ==
            |SocketsOf(bySocket, sub)| + if sub == wrapper.principal.sub then 1 else 0
  {
    var own := if sub == wrapper.principal.sub then {wrapper.ws} else {};
    assert SocketsOf(bySocket[wrapper.ws := wrapper], sub) == SocketsOf(bySocket, sub) + own;
  }

  // Adding keeps the indexes in agreement exactly when the socket is a new one.
  lemma AddKeepsValidIffFresh(s: Indexes, ws: Ws, principal: Principal)
    requires Valid(s)
    ensures Valid(Added(s, ws, principal)) <==> ws !in s.bySocket
  {
    if ws !in s.bySocket {
      AddKeepsTenants(s, ws, principal);
      AddKeepsPrincipals(s, ws, principal);
    } else {
      StaleWrapperStays(s, ws, principal);
    }
  }

  // Registering a socket again leaves its old wrapper in a tenant bucket.
  lemma StaleWrapperStays(s: Indexes, ws: Ws, principal: Principal)
    requires Valid(s) && ws in s.bySocket
    ensures !TenantsAgree(Added(s, ws, principal))
  {
    var after, stale := Added(s, ws, principal), s.bySocket[ws];
    var tenantId := stale.principal.tenantId;
    assert Bucket(s, tenantId) == WrappersOf(s.bySocket, tenantId);
    assert stale in Bucket(after, tenantId);
    assert stale !in WrappersOf(after.bySocket, tenantId);
    assert Bucket(after, tenantId) != WrappersOf(after.bySocket, tenantId);
  }

  lemma RemoveKeepsTenants(s: Indexes, ws: Ws)
    requires SocketsAgree(s) && TenantsAgree(s) && ws in s.bySocket
    ensures TenantsAgree(Removed(s, ws))
  {
    var after, wrapper := Removed(s, ws), s.bySocket[ws];
    forall tenantId
      ensures Bucket(after, tenantId) == WrappersOf(after.bySocket, tenantId)
    {
      assert Bucket(s, tenantId) == WrappersOf(s.bySocket, tenantId);
      forall w
        ensures w in WrappersOf(after.bySocket, tenantId) <==> w in WrappersOf(s.bySocket, tenantId) && w != wrapper
      {
        if w in WrappersOf(s.bySocket, tenantId) && w != wrapper {
          assert w.ws != ws && after.bySocket[w.ws] == w;
        }
      }
      if tenantId != wrapper.principal.tenantId {
        assert wrapper !in WrappersOf(s.bySocket, tenantId);
      }
    }
  }

  lemma RemoveKeepsPrincipals(s: Indexes, ws: Ws)
    requires PrincipalsAgree(s) && ws in s.bySocket
    ensures PrincipalsAgree(Removed(s, ws))
  {
    var after, own := Removed(s, ws), s.bySocket[ws].principal.sub;
    assert ws in SocketsOf(s.bySocket, own);
    forall sub
      ensures CountOf(after, sub) == |SocketsOf(after.bySocket, sub)|
    {
      assert CountOf(s, sub) == |SocketsOf(s.bySocket, sub)|;
      assert SocketsOf(after.bySocket, sub) == SocketsOf(s.bySocket, sub) - {ws};
      if sub == own {
        assert |SocketsOf(after.bySocket, sub)| == |SocketsOf(s.bySocket, sub)| - 1;
      } else {
        assert SocketsOf(after.bySocket, sub) == SocketsOf(s.bySocket, sub);
      }
    }
  }

  lemma RemoveKeepsValid(s: Indexes, ws: Ws)
    requires Valid(s)
    ensures Valid(Removed(s, ws))
  {
    if ws in s.bySocket {
      RemoveKeepsTenants(s, ws);
      RemoveKeepsPrincipals(s, ws);
    }
  }

  lemma RemoveIsIdempotent(s: Indexes, ws: Ws)
    ensures Removed(Removed(s, ws), ws) == Removed(s, ws)
  {
  }

  // Removing undoes adding a new socket, in every index.
  lemma RemoveUndoesAdd(s: Indexes, ws: Ws, principal: Principal)
    requires Valid(s) && ws !in s.bySocket
    ensures Removed(Added(s, ws, principal), ws) == s.(created := s.created + 1)
  {
    var after, wrapper := Added(s, ws, principal), Wrapper(s.created, ws, principal);
    assert wrapper !in Bucket(s, principal.tenantId) by {
      assert Bucket(s, principal.tenantId) == WrappersOf(s.bySocket, principal.tenantId);
    }
    assert Bucket(s, principal.tenantId) + {wrapper} - {wrapper} == Bucket(s, principal.tenantId);
    assert WithoutFromBucket(after.byTenant, wrapper) == s.byTenant;
    assert CountedDown(after.byPrincipal, principal.sub) == s.byPrincipal;
    assert after.bySocket - {ws} == s.bySocket;
  }

  // A socket is registered for a principal: with that principal, in the bucket of the
  // principal's tenant and in no other.
  ghost predicate IsRegistered(s: Indexes, ws: Ws, principal: Principal) {
    ws in s.bySocket && s.bySocket[ws].ws == ws && s.bySocket[ws].principal == principal &&
    forall tenantId :: (exists w :: w in Bucket(s, tenantId) && w.ws == ws) <==> tenantId == principal.tenantId
  }

  // Every socket but one keeps its wrapper.
  predicate OthersKept(before: Indexes, after: Indexes, ws: Ws) {
    after.bySocket - {ws} == before.bySocket - {ws}
  }

  lemma RegisteredIn(s: Indexes, ws: Ws)
    requires Valid(s) && ws in s.bySocket
    ensures IsRegistered(s, ws, s.bySocket[ws].principal)
  {
    var wrapper := s.bySocket[ws];
    forall tenantId
      ensures (exists w :: w in Bucket(s, tenantId) && w.ws == ws) <==> tenantId == wrapper.principal.tenantId
    {
      assert Bucket(s, tenantId) == WrappersOf(s.bySocket, tenantId);
      if tenantId == wrapper.principal.tenantId {
        assert wrapper in Bucket(s, tenantId);
      }
    }
  }

  // A connection below its cap registers the new socket for the principal that connected,
  // and touches no other socket; at the cap nothing changes.
  lemma ConnectRegisters(s: Indexes, ws: Ws, principal: Principal, maxPerPrincipal: nat)
    requires Valid(s) && ws !in s.bySocket
    ensures var after := Connected(s, ws, principal, maxPerPrincipal);
      OthersKept(s, after, ws) &&
      if CountOf(s, principal.sub) < maxPerPrincipal then IsRegistered(after, ws, principal) else after == s
  {
    if CountOf(s, principal.sub) < maxPerPrincipal {
      AddKeepsValidIffFresh(s, ws, principal);
      var after := Added(s, ws, principal);
      RegisteredIn(after, ws);
      assert after.bySocket - {ws} == s.bySocket - {ws};
    }
  }

  // ---------------------------------------------------------------- the registry

  class ConnectionRegistry {
    var byTenant: map<string, set<Wrapper>>
    var bySocket: map<Ws, Wrapper>
    var byPrincipal: map<string, nat>
    var created: nat

    constructor ()
      ensures State() == EMPTY && Valid(State())
    {
      byTenant, bySocket, byPrincipal, created := map[], map[], map[], 0;
    }

    function State(): Indexes
      reads this
    {
      Indexes(byTenant, bySocket, byPrincipal, created)
    }

    function PrincipalConnectionCount(sub: string): nat
      reads this
    {
      if sub in byPrincipal then byPrincipal[sub] else 0
    }

    method Add(ws: Ws, principal: Principal) returns (wrapper: Wrapper)
      modifies this
      ensures State() == Added(old(State()), ws, principal)
      ensures wrapper == bySocket[ws] && wrapper.ws == ws && wrapper.principal == principal
    {
      wrapper := Wrapper(created, ws, principal);
      created := created + 1;
      var tenantSet := {};
      if principal.tenantId in byTenant {
        tenantSet := byTenant[principal.tenantId];
      }
      byTenant := byTenant[principal.tenantId := tenantSet + {wrapper}];
      bySocket := bySocket[ws := wrapper];
      var prev := PrincipalConnectionCount(principal.sub);
      byPrincipal := byPrincipal[principal.sub := prev + 1];
    }

    method Remove(ws: Ws)
      modifies this
      ensures State() == Removed(old(State()), ws)
    {
      if ws !in bySocket {
        return;
      }
      var wrapper := bySocket[ws];
      bySocket := bySocket - {ws};
      var tenantId := wrapper.principal.tenantId;
      if tenantId in byTenant {
        byTenant := byTenant[tenantId := byTenant[tenantId] - {wrapper}];
        if byTenant[tenantId] == {} {
          byTenant := byTenant - {tenantId};
        }
      }
      var sub := wrapper.principal.sub;
      var count := if sub in byPrincipal then byPrincipal[sub] else 1;
      if count <= 1 {
        byPrincipal := byPrincipal - {sub};
      } else {
        byPrincipal := byPrincipal[sub := count - 1];
      }
    }

    method GetTenantSockets(tenantId: string) returns (wrappers: set<Wrapper>)
      requires Valid(State())
      ensures wrappers == WrappersOf(bySocket, tenantId)
    {
      wrappers := if tenantId in byTenant then byTenant[tenantId] else {};
      assert wrappers == Bucket(State(), tenantId);
    }

    // A verified connection: refused at the principal's cap, else registered.
    method OnConnection(ws: Ws, principal: Principal, maxPerPrincipal: nat) returns (accepted: bool)
      modifies this
      ensures OthersKept(old(State()), State(), ws)
      ensures accepted ==> ws in bySocket && bySocket[ws].principal == principal
      ensures old(Valid(State()) && ws !in bySocket) ==>
                Valid(State()) && if accepted then IsRegistered(State(), ws, principal) else State() == old(State())
      ensures State() == Connected(old(State()), ws, principal, maxPerPrincipal)
      ensures accepted <==> CountOf(old(State()), principal.sub) < maxPerPrincipal
    {
      if PrincipalConnectionCount(principal.sub) >= maxPerPrincipal {
        return false;
      }
      ghost var before := State();
      var wrapper := Add(ws, principal);
      accepted := true;
      assert bySocket - {ws} == before.bySocket - {ws};
      if Valid(before) && ws !in before.bySocket {
        ConnectRegisters(before, ws, principal, maxPerPrincipal);
        AddKeepsValidIffFresh(before, ws, principal);
      }
    }
  }

  function Connected(s: Indexes, ws: Ws, principal: Principal, maxPerPrincipal: nat): Indexes {
    if CountOf(s, principal.sub) >= maxPerPrincipal then s else Added(s, ws, principal)
  }

  // -------------------------------------------------------------------------- runs

  // A new socket connects; a socket closes or fails, whether registered or not.
  datatype Event = Connects(ws: Ws, principal: Principal) | Closes(ws: Ws)

  function After(s: Indexes, maxPerPrincipal: nat, event: Event): Indexes {
    match event
    case Connects(ws, principal) => Connected(s, ws, principal, maxPerPrincipal)
    case Closes(ws) => Removed(s, ws)
  }

  function AfterAll(s: Indexes, maxPerPrincipal: nat, events: seq<Event>): Indexes
    decreases |events|
  {
    if events == [] then s else AfterAll(After(s, maxPerPrincipal, events[0]), maxPerPrincipal, events[1..])
  }

  // A connecting socket is a new object.
  predicate NewSockets(s: Indexes, maxPerPrincipal: nat, events: seq<Event>)
    decreases |events|
  {
    events == [] ||
    ((events[0].Connects? ==> events[0].ws !in s.bySocket) &&
     NewSockets(After(s, maxPerPrincipal, events[0]), maxPerPrincipal, events[1..]))
  }

  // In every run the indexes agree and no principal holds more sockets than its cap.
  lemma {:induction false} IndexesAlwaysAgree(s: Indexes, maxPerPrincipal: nat, events: seq<Event>, sub: string)
    requires Valid(s) && NewSockets(s, maxPerPrincipal, events)
    requires |SocketsOf(s.bySocket, sub)| <= maxPerPrincipal
    ensures Valid(AfterAll(s, maxPerPrincipal, events))
    ensures |SocketsOf(AfterAll(s, maxPerPrincipal, events).bySocket, sub)| <= maxPerPrincipal
    decreases |events|
  {
    if events != [] {
      var event, next := events[0], After(s, maxPerPrincipal, events[0]);
      match event {
        case Connects(ws, principal) =>
          AddKeepsValidIffFresh(s, ws, principal);
        case Closes(ws) =>
          RemoveKeepsValid(s, ws);
      }
      assert CountOf(s, sub) == |SocketsOf(s.bySocket, sub)| && CountOf(next, sub) == |SocketsOf(next.bySocket, sub)|;
      IndexesAlwaysAgree(next, maxPerPrincipal, events[1..], sub);
    }
  }

  predicate NeverCloses(events: seq<Event>, ws: Ws) {
    forall i :: 0 <= i < |events| ==> events[i] != Closes(ws)
  }

  // A connection of a socket for a principal was accepted in a run, and the socket has
  // not closed since.
  predicate IsConnectedAs(s: Indexes, maxPerPrincipal: nat, events: seq<Event>, ws: Ws, principal: Principal)
    decreases |events|
  {
    events != [] &&
    ((events[0] == Connects(ws, principal) && CountOf(s, principal.sub) < maxPerPrincipal &&
      NeverCloses(events[1..], ws)) ||
     IsConnectedAs(After(s, maxPerPrincipal, events[0]), maxPerPrincipal, events[1..], ws, principal))
  }

  predicate HeldAs(s: Indexes, ws: Ws, principal: Principal) {
    ws in s.bySocket && s.bySocket[ws].principal == principal
  }

  lemma {:induction false} HeldAtEnd(s: Indexes, maxPerPrincipal: nat, events: seq<Event>, ws: Ws,
                                     principal: Principal)
    requires Valid(s) && NewSockets(s, maxPerPrincipal, events)
    ensures HeldAs(AfterAll(s, maxPerPrincipal, events), ws, principal) <==>
            (HeldAs(s, ws, principal) && NeverCloses(events, ws)) ||
            IsConnectedAs(s, maxPerPrincipal, events, ws, principal)
    decreases |events|
  {
    if events != [] {
      var event, next, rest := events[0], After(s, maxPerPrincipal, events[0]), events[1..];
      match event {
        case Connects(other, p) =>
          AddKeepsValidIffFresh(s, other, p);
        case Closes(other) =>
          RemoveKeepsValid(s, other);
      }
      HeldAtEnd(next, maxPerPrincipal, rest, ws, principal);
      assert NeverCloses(events, ws) <==> event != Closes(ws) && NeverCloses(rest, ws);
    }
  }

  // After any run from an empty registry a socket is registered for a principal, in the
  // bucket of that principal's tenant alone, exactly when its own connection for that
  // principal was accepted and it has not closed since.
  lemma RegisteredExactly(maxPerPrincipal: nat, events: seq<Event>, ws: Ws, principal: Principal)
    requires NewSockets(EMPTY, maxPerPrincipal, events)
    ensures IsRegistered(AfterAll(EMPTY, maxPerPrincipal, events), ws, principal) <==>
            IsConnectedAs(EMPTY, maxPerPrincipal, events, ws, principal)
  {
    var end := AfterAll(EMPTY, maxPerPrincipal, events);
    HeldAtEnd(EMPTY, maxPerPrincipal, events, ws, principal);
    assert |SocketsOf(EMPTY.bySocket, principal.sub)| == 0;
    IndexesAlwaysAgree(EMPTY, maxPerPrincipal, events, principal.sub);
    if ws in end.bySocket {
      RegisteredIn(end, ws);
    }
  }
}
