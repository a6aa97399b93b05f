/** The capability registry: a derivation forest with attenuated rights and
    transitive revocation. */
module Capabilities {
  import opened MachineWords

  datatype CkError =
    | BadCap | NoRight | Revoked | NotFound | InvalidObject | InvalidState | PeerDown | QueueFull | QueueEmpty

  datatype CkResult<+T> = Ok(value: T) | Err(error: CkError)

  type CapId = nat
  type ObjectId = nat

  // ----- rights -----

  type Rights = bv64

  const NONE: Rights := 0
  const READ: Rights := 1
  const WRITE: Rights := 2
  const SEND: Rights := 4
  const RECV: Rights := 8
  const DELEGATE: Rights := 16
  const REVOKE: Rights := 32
  const OBSERVE: Rights := 64

  predicate Contains(held: Rights, required: Rights) {
    held & required == required
  }

  lemma ContainsTrans(a: Rights, b: Rights, c: Rights)
    requires Contains(a, b) && Contains(b, c)
    ensures Contains(a, c)
  {
  }

  // ----- the registry as a value -----

  datatype ObjectType = CorridorObject

  datatype Capability = Capability(target: ObjectId, objectType: ObjectType, rights: Rights, parent: Option<CapId>,
    revoked: bool, delegable: bool)

  type CapMap = map<CapId, Capability>

  datatype Registry = Registry(next: nat, caps: CapMap, children: map<CapId, seq<CapId>>)

  /** `k` is `c` or was derived from it, directly or through other capabilities. */
  predicate Descends(caps: CapMap, k: CapId, c: CapId)
    decreases k
  {
    k == c || (k in caps && caps[k].parent.Some? && caps[k].parent.value < k && Descends(caps, caps[k].parent.value, c))
  }

  /** One parent with a smaller id, attenuated rights, revocation carried down, and
      child lists that mirror the parent links. */
  ghost predicate RegistryOk(r: Registry) {
    && (forall k | k in r.caps :: 1 <= k <= r.next && (r.caps[k].parent.None? ==> r.caps[k].delegable))
    && (forall k | k in r.caps && r.caps[k].parent.Some? :: LinkOk(r, k))
    && (forall p | p in r.children :: ChildrenOk(r, p))
  }

  ghost predicate LinkOk(r: Registry, k: CapId)
    requires k in r.caps && r.caps[k].parent.Some?
  {
    var p := r.caps[k].parent.value;
    && p in r.caps && p < k
    && Contains(r.caps[p].rights, r.caps[k].rights)
    && r.caps[k].target == r.caps[p].target && r.caps[k].objectType == r.caps[p].objectType
    && (r.caps[p].revoked ==> r.caps[k].revoked)
    && (r.caps[k].delegable <==> Contains(r.caps[k].rights, DELEGATE))
    && p in r.children && k in r.children[p]
  }

  ghost predicate ChildrenOk(r: Registry, p: CapId)
    requires p in r.children
  {
    && p in r.caps
    && (forall i | 0 <= i < |r.children[p]| :: r.children[p][i] in r.caps && r.caps[r.children[p][i]].parent == Some(p))
    && (forall i, j | 0 <= i < j < |r.children[p]| :: r.children[p][i] != r.children[p][j])
  }

  const EMPTY := Registry(0, map[], map[])

  function MintRoot(r: Registry, target: ObjectId, objectType: ObjectType, rights: Rights): (Registry, CapId) {
    var cap := r.next + 1;
    (Registry(cap, r.caps[cap := Capability(target, objectType, rights, None, false, true)], r.children), cap)
  }

  function Delegate(r: Registry, parent: CapId, rights: Rights): (Registry, CkResult<CapId>) {
    if parent !in r.caps then (r, Err(BadCap)) else
    var p := r.caps[parent];
    if p.revoked then (r, Err(Revoked))
    else if !p.delegable || !Contains(p.rights, DELEGATE) then (r, Err(NoRight))
    else if !Contains(p.rights, rights) then (r, Err(NoRight))
    else
      var cap := r.next + 1;
      var list := if parent in r.children then r.children[parent] else [];
      (Registry(cap,
                r.caps[cap := Capability(p.target, p.objectType, rights, Some(parent), false,
                  Contains(rights, DELEGATE))],
                r.children[parent := list + [cap]]),
       Ok(cap))
  }

  /** The capabilities with `c` and all its descendants revoked, all others as they were. */
  function RevokeFrom(caps: CapMap, c: CapId): (r: CapMap)
    ensures r.Keys == caps.Keys
  {
    map k | k in caps :: if Descends(caps, k, c) then caps[k].(revoked := true) else caps[k]
  }

  function Revoke(r: Registry, c: CapId): (Registry, CkResult<()>) {
    if c !in r.caps then (r, Err(BadCap)) else (r.(caps := RevokeFrom(r.caps, c)), Ok(()))
  }

  function Authorize(r: Registry, cap: CapId, objectType: ObjectType, rights: Rights): CkResult<ObjectId> {
    if cap !in r.caps then Err(BadCap)
    else if r.caps[cap].revoked then Err(Revoked)
    else if r.caps[cap].objectType != objectType then Err(InvalidObject)
    else if !Contains(r.caps[cap].rights, rights) then Err(NoRight)
    else Ok(r.caps[cap].target)
  }

  // ----- the invariant is kept -----

  lemma MintKeeps(r: Registry, target: ObjectId, objectType: ObjectType, rights: Rights)
    requires RegistryOk(r)
    ensures RegistryOk(MintRoot(r, target, objectType, rights).0)
  {
    var r' := MintRoot(r, target, objectType, rights).0;
    forall k | k in r'.caps && r'.caps[k].parent.Some?
      ensures LinkOk(r', k)
    {
      assert LinkOk(r, k);
    }
    forall p | p in r'.children
      ensures ChildrenOk(r', p)
    {
      assert ChildrenOk(r, p);
    }
  }

  lemma DelegateKeeps(r: Registry, parent: CapId, rights: Rights)
    requires RegistryOk(r)
    ensures RegistryOk(Delegate(r, parent, rights).0)
  {
    hide Contains, LinkOk, ChildrenOk;
    var (r', o) := Delegate(r, parent, rights);
    if o.Ok? {
      forall k | k in r'.caps && r'.caps[k].parent.Some?
        ensures LinkOk(r', k)
      {
        DelegateLink(r, parent, rights, k);
      }
      forall p | p in r'.children
        ensures ChildrenOk(r', p)
      {
        DelegateChildren(r, parent, rights, p);
      }
    }
  }

  lemma DelegateLink(r: Registry, parent: CapId, rights: Rights, k: CapId)
    requires RegistryOk(r) && Delegate(r, parent, rights).1.Ok?
    requires var r' := Delegate(r, parent, rights).0; k in r'.caps && r'.caps[k].parent.Some?
    ensures LinkOk(Delegate(r, parent, rights).0, k)
  {
    hide Contains, ChildrenOk;
    if k in r.caps && k <= r.next {
      assert LinkOk(r, k);
    }
  }

  lemma DelegateChildren(r: Registry, parent: CapId, rights: Rights, p: CapId)
    requires RegistryOk(r) && Delegate(r, parent, rights).1.Ok? && p in Delegate(r, parent, rights).0.children
    ensures ChildrenOk(Delegate(r, parent, rights).0, p)
  {
    hide Contains, LinkOk;
    if p in r.children {
      assert ChildrenOk(r, p);
    }
  }

  lemma RevokeKeeps(r: Registry, c: CapId)
    requires RegistryOk(r)
    ensures RegistryOk(Revoke(r, c).0)
  {
    hide Contains;
    if c in r.caps {
      var r' := Revoke(r, c).0;
      forall k | k in r'.caps && r'.caps[k].parent.Some?
        ensures LinkOk(r', k)
      {
        assert LinkOk(r, k);
      }
      forall p | p in r'.children
        ensures ChildrenOk(r', p)
      {
        assert ChildrenOk(r, p);
      }
    }
  }

  // ----- what the invariant means along whole chains -----

  /** Rights only shrink, object and type never change, and a revoked ancestor
      means a revoked descendant, over any number of derivation steps. */
  lemma {:induction false} ChainAttenuates(r: Registry, k: CapId, a: CapId)
    requires RegistryOk(r) && k in r.caps && Descends(r.caps, k, a)
    ensures a in r.caps && a <= k
    ensures Contains(r.caps[a].rights, r.caps[k].rights)
    ensures r.caps[k].target == r.caps[a].target && r.caps[k].objectType == r.caps[a].objectType
    ensures r.caps[a].revoked ==> r.caps[k].revoked
    decreases k
  {
    if k == a {
      assert Contains(r.caps[a].rights, r.caps[a].rights);
    } else {
      var p := r.caps[k].parent.value;
      assert LinkOk(r, k);
      ChainAttenuates(r, p, a);
      ContainsTrans(r.caps[a].rights, r.caps[p].rights, r.caps[k].rights);
    }
  }

  /** Authority rests on the whole chain: a capability authorises exactly when it and
      everything it derives from is live and holds the rights, and it is reported as
      revoked exactly when something on the chain is. */
  lemma {:induction false} AuthorityOfChain(r: Registry, cap: CapId, rights: Rights)
    requires RegistryOk(r)
    ensures var a := Authorize(r, cap, CorridorObject, rights);
      && (a.Ok? <==> cap in r.caps && forall p | Descends(r.caps, cap, p) ::
           p in r.caps && !r.caps[p].revoked && Contains(r.caps[p].rights, rights))
      && (a.Ok? ==> forall p | Descends(r.caps, cap, p) :: p in r.caps && r.caps[p].target == a.value)
      && (a == Err(Revoked) <==> cap in r.caps && exists p ::
           Descends(r.caps, cap, p) && p in r.caps && r.caps[p].revoked)
  {
    hide Contains, RegistryOk;
    assert Descends(r.caps, cap, cap);
    if cap in r.caps {
      forall p | Descends(r.caps, cap, p)
        ensures p in r.caps && r.caps[p].target == r.caps[cap].target && (r.caps[p].revoked ==> r.caps[cap].revoked)
        ensures Contains(r.caps[cap].rights, rights) ==> Contains(r.caps[p].rights, rights)
      {
        ChainAttenuates(r, cap, p);
        if Contains(r.caps[cap].rights, rights) {
          ContainsTrans(r.caps[p].rights, r.caps[cap].rights, rights);
        }
      }
    }
  }

  /** The right to pass rights on rests on the whole chain too: a capability can be
      delegated from exactly when it and everything it derives from is live and holds the
      delegation right and the rights passed on. The new capability has exactly those and
      derives from what its parent does. */
  lemma {:induction false} DelegationOfChain(r: Registry, parent: CapId, rights: Rights)
    requires RegistryOk(r)
    ensures var (r', o) := Delegate(r, parent, rights);
      && (o.Ok? <==> parent in r.caps && forall p | Descends(r.caps, parent, p) ::
           p in r.caps && !r.caps[p].revoked && Contains(r.caps[p].rights, DELEGATE)
             && Contains(r.caps[p].rights, rights))
      && (o.Ok? ==>
           && o.value !in r.caps && o.value in r'.caps && r'.caps[o.value].rights == rights
           && !r'.caps[o.value].revoked && r'.caps[o.value].parent == Some(parent))
      && (o.Err? ==> r' == r)
  {
    hide Contains, RegistryOk;
    assert Descends(r.caps, parent, parent);
    if parent in r.caps {
      MayDelegate(r, parent);
      forall p | Descends(r.caps, parent, p)
        ensures p in r.caps && (r.caps[p].revoked ==> r.caps[parent].revoked)
        ensures Contains(r.caps[parent].rights, rights) ==> Contains(r.caps[p].rights, rights)
        ensures Contains(r.caps[parent].rights, DELEGATE) ==> Contains(r.caps[p].rights, DELEGATE)
      {
        ChainAttenuates(r, parent, p);
        ContainsMore(r.caps[p].rights, r.caps[parent].rights, rights);
        ContainsMore(r.caps[p].rights, r.caps[parent].rights, DELEGATE);
      }
    }
  }

  lemma ContainsMore(a: Rights, b: Rights, c: Rights)
    requires Contains(a, b)
    ensures Contains(b, c) ==> Contains(a, c)
  {
    if Contains(b, c) {
      ContainsTrans(a, b, c);
    }
  }

  /** What the registry says of one capability. */
  lemma MayDelegate(r: Registry, k: CapId)
    requires RegistryOk(r) && k in r.caps
    ensures r.next + 1 !in r.caps && (Contains(r.caps[k].rights, DELEGATE) ==> r.caps[k].delegable)
  {
    hide Contains, ChildrenOk;
    assert r.caps[k].parent.Some? ==> LinkOk(r, k);
  }

  /** Derivation links are never changed, so neither is descent. */
  lemma {:induction false} DescendsStable(caps: CapMap, caps': CapMap, k: CapId, c: CapId)
    requires forall x | x in caps :: x in caps' && caps'[x].parent == caps[x].parent
    requires forall x | x in caps && caps[x].parent.Some? :: caps[x].parent.value in caps
    requires k in caps
    ensures Descends(caps', k, c) == Descends(caps, k, c)
    decreases k
  {
    if k != c && caps[k].parent.Some? && caps[k].parent.value < k {
      DescendsStable(caps, caps', caps[k].parent.value, c);
    }
  }
}
